/** Parents, children and wait over whole runs: whose child a process is, whose pids wait returns, and
    when wait sleeps, fails or returns. */
module KinRuns {
  import opened ProcTable
  import opened ProcRuns
  import K = KillRuns

  // ---- What the steps do to one process ----

  /** Step a is the end of a fork by p whose child is in slot c. */
  ghost predicate Bears(s: Sys, a: Step, p: int, c: int)
    requires |s.doing| == NPROC
  {
    a == ForkDone(p) && IsSlot(p) && s.doing[p] == Forking(c)
  }

  /** The life and the parent of slot c: a fork gives the child its parent, exit hands the children to
      init, and only wait ends a zombie. */
  ghost predicate LifeMoves(s: Sys, a: Step, c: int, u: Table)
    requires Shaped(s.t) && |s.doing| == NPROC && IsSlot(c) && Shaped(u)
  {
    var x, y := s.t.procs[c], u.procs[c];
    && (Alive(y) <==> (Alive(x) && a != ExitStep(c)) || exists p :: Bears(s, a, p, c))
    && (y.state == ZOMBIE <==> a == ExitStep(c) || (x.state == ZOMBIE && !K.Cleared(s, a, c)))
    && (forall p :: Bears(s, a, p, c) ==> y.parent == p)
    && (K.Cleared(s, a, c) ==> y.parent == NULL)
    && (!K.Cleared(s, a, c) && (forall p :: !Bears(s, a, p, c)) ==>
          y.parent == if a.ExitStep? && x.parent == a.p then INIT else x.parent)
  }

  lemma {:induction false} ForkLife(s: Sys, a: Step, c: int)
    requires Forks(s) && Enabled(s, a) && IsSlot(c) && (a.ForkStart? || a.ForkFail? || a.ForkDone?)
    ensures Shaped(Do(s, a).t) && LifeMoves(s, a, c, Do(s, a).t)
  {
    hide Queued, Find, Forks;
    if !a.ForkStart? { EmbryoOf(s, a.p); }
    if a.ForkDone? && s.doing[a.p].child == c { assert Bears(s, a, a.p, c); }
  }

  lemma {:induction false} WaitLife(s: Sys, w: int, c: int)
    requires Enabled(s, WaitStep(w)) && IsSlot(c)
    ensures Shaped(Do(s, WaitStep(w)).t) && LifeMoves(s, WaitStep(w), c, Do(s, WaitStep(w)).t)
  {
    hide Queued, HasKids, ZombieChild;
    ZombieFacts(s.t, w);
  }

  /** The zombie child that wait finds is the first in the table. */
  lemma {:induction false} ZombieFacts(t: Table, p: int)
    requires Shaped(t)
    ensures var z := ZombieChild(t, p);
            && z <= NPROC && (z < NPROC ==> t.procs[z].parent == p && t.procs[z].state == ZOMBIE)
            && forall j :: 0 <= j < z ==> !(t.procs[j].parent == p && t.procs[j].state == ZOMBIE)
  {
  }

  lemma {:induction false} ExitLife(s: Sys, e: int, c: int)
    requires Enabled(s, ExitStep(e)) && IsSlot(c)
    ensures Shaped(Do(s, ExitStep(e)).t) && LifeMoves(s, ExitStep(e), c, Do(s, ExitStep(e)).t)
  {
    hide Queued, Exit;
    ExitEffect(s.t, e);
  }

  lemma {:induction false} MoveLife(s: Sys, a: Step, c: int)
    requires Enabled(s, a) && IsSlot(c) && IsMove(a)
    ensures Shaped(Do(s, a).t) && LifeMoves(s, a, c, Do(s, a).t)
  {
    hide Queued, Do;
    MovesStep(s, a);
    assert MovesOne(s.t.procs[c], Do(s, a).t.procs[c]);
  }

  lemma {:induction false} LifeStep(s: Sys, a: Step, c: int)
    requires Forks(s) && Enabled(s, a) && IsSlot(c)
    ensures Shaped(Do(s, a).t) && LifeMoves(s, a, c, Do(s, a).t)
  {
    hide Queued, Do, Forks, LifeMoves;
    match a
    case ForkStart(_) => ForkLife(s, a, c);
    case ForkFail(_) => ForkLife(s, a, c);
    case ForkDone(_) => ForkLife(s, a, c);
    case ExitStep(e) => ExitLife(s, e, c);
    case WaitStep(w) => WaitLife(s, w, c);
    case _ => MoveLife(s, a, c);
  }

  // ---- Parents ----

  /** The run has no exit of p. */
  predicate NoExit(run: seq<Step>, p: int) { ExitStep(p) !in run }

  /** A process keeps its parent until the parent exits or the process is reaped. */
  lemma {:induction false} ParentStays(s: Sys, run: seq<Step>, p: int, c: int)
    requires Inv(s) && CanRun(s, run) && IsSlot(c) && NoExit(run, p) && K.Spared(s, run, c)
    requires Shaped(s.t) && s.t.procs[c].parent == p && !K.Empty(s.t.procs[c])
    ensures Shaped(After(s, run).t) && After(s, run).t.procs[c].parent == p && !K.Empty(After(s, run).t.procs[c])
    decreases |run|
  {
    hide Inv, Queued, Do, Enabled, Forks, K.Cleared;
    K.InvForks(s);
    if run != [] {
      StepInv(s, run[0]);
      LifeStep(s, run[0], c);
      K.SlotStep(s, run[0], c);
      NotBorn(s, run[0], c);
      TakenEmpty(s, run[0], c);
      assert forall k :: 0 <= k < |run| - 1 ==> run[1..][k] == run[k + 1];
      ParentStays(Do(s, run[0]), run[1..], p, c);
    }
  }

  /** Only an embryo is the child of a fork under way. */
  lemma {:induction false} NotBorn(s: Sys, a: Step, c: int)
    requires Forks(s) && Enabled(s, a) && IsSlot(c) && s.t.procs[c].state != EMBRYO
    ensures forall p :: !Bears(s, a, p, c)
  {
    hide Queued;
  }

  lemma {:induction false} TakenEmpty(s: Sys, a: Step, c: int)
    requires Forks(s) && Enabled(s, a) && IsSlot(c) && !K.Empty(s.t.procs[c])
    ensures !K.Taken(s, a, c) && !K.GivenUp(s, a, c)
  {
    hide Queued;
  }

  /** A fork by p makes p the parent of the child; p's exit makes init the parent of all its children. */
  lemma {:induction false} ParentSet(s: Sys, p: int, c: int)
    requires Forks(s) && IsSlot(c)
    ensures Enabled(s, ForkDone(p)) && s.doing[p] == Forking(c) ==>
              Do(s, ForkDone(p)).t.procs[c].parent == p && Do(s, ForkDone(p)).t.procs[c].state == RUNNABLE
    ensures Enabled(s, ExitStep(p)) && s.t.procs[c].parent == p ==>
              Shaped(Do(s, ExitStep(p)).t) && Do(s, ExitStep(p)).t.procs[c].parent == INIT
  {
    hide Queued, Exit, Forks;
    if Enabled(s, ForkDone(p)) { EmbryoOf(s, p); }
    if Enabled(s, ExitStep(p)) { ExitEffect(s.t, p); }
  }

  // ---- Who forked whom ----

  /** The pid of the process that forked each pid, and the pids that have called exit. */
  datatype Kin = Kin(forker: map<nat, nat>, exited: set<nat>)

  ghost function Next(s: Sys, a: Step, k: Kin): Kin
    requires Enabled(s, a)
  {
    match a
    case ForkDone(p) => k.(forker := k.forker[s.t.procs[s.doing[p].child].pid := s.t.procs[p].pid])
    case ExitStep(p) => k.(exited := k.exited + {s.t.procs[p].pid})
    case _ => k
  }

  ghost function Record(s: Sys, run: seq<Step>, k: Kin): Kin
    requires CanRun(s, run)
    decreases |run|
  {
    if run == [] then k else Record(Do(s, run[0]), run[1..], Next(s, run[0], k))
  }

  /** The process in slot c is a child of the one that forked it while that lives, and of init after. */
  ghost predicate ChildOf(t: Table, k: Kin, c: int)
    requires Shaped(t) && IsSlot(c)
  {
    var x := t.procs[c];
    && x.pid in k.forker
    && if k.forker[x.pid] in k.exited then x.parent == INIT
       else IsSlot(x.parent) && Alive(t.procs[x.parent]) && t.procs[x.parent].pid == k.forker[x.pid]
  }

  ghost predicate Related(t: Table, k: Kin)
    requires Shaped(t)
  {
    && (forall c :: 0 <= c < NPROC && c != INIT && !K.Empty(t.procs[c]) ==> ChildOf(t, k, c))
    && (forall c :: 0 <= c < NPROC && t.procs[c].state != UNUSED && t.procs[c].state != ZOMBIE ==>
          t.procs[c].pid !in k.exited)
    && (forall c :: 0 <= c < NPROC && t.procs[c].state == ZOMBIE ==> t.procs[c].pid in k.exited)
    && (forall pid :: pid in k.exited ==> pid < t.nextpid)
  }

  lemma {:induction false} SamePid(s: Sys, a: Step, c: int)
    requires Forks(s) && Enabled(s, a) && IsSlot(c) && !K.Empty(s.t.procs[c])
    ensures Shaped(Do(s, a).t) && (!K.Cleared(s, a, c) ==> Do(s, a).t.procs[c].pid == s.t.procs[c].pid)
    ensures K.Cleared(s, a, c) ==> Do(s, a).t.procs[c].state == UNUSED && s.t.procs[c].state == ZOMBIE
  {
    hide Queued, Do, Forks, K.Taken, K.Cleared;
    K.SlotStep(s, a, c);
    TakenEmpty(s, a, c);
    ClearedZombie(s, a, c);
  }

  lemma {:induction false} ClearedZombie(s: Sys, a: Step, c: int)
    requires Shaped(s.t) && IsSlot(c)
    ensures K.Cleared(s, a, c) ==> s.t.procs[c].state == ZOMBIE
  {
    if a.WaitStep? && IsSlot(a.p) { ZombieFacts(s.t, a.p); }
  }

  /** Two slots in use have different pids. */
  lemma {:induction false} PidsDiffer(s: Sys, c: int, d: int)
    requires Inv(s) && Shaped(s.t) && IsSlot(c) && IsSlot(d) && c != d
    requires s.t.procs[c].state != UNUSED && s.t.procs[d].state != UNUSED
    ensures s.t.procs[c].pid != s.t.procs[d].pid && s.t.procs[c].pid < s.t.nextpid
  {
    hide Queued, Forks, Families, Waiters, Quanta;
  }

  /** A new child. */
  lemma {:induction false} BornKin(s: Sys, p: int, k: Kin, c: int)
    requires Inv(s) && Enabled(s, ForkDone(p)) && s.doing[p] == Forking(c) && Related(s.t, k)
    ensures Shaped(Do(s, ForkDone(p)).t) && ChildOf(Do(s, ForkDone(p)).t, Next(s, ForkDone(p), k), c)
  {
    hide Queued, Families, Waiters, Pids, Quanta, Forks;
    K.InvForks(s);
    EmbryoOf(s, p);
  }

  /** A process that has lived on. */
  lemma {:induction false} OldKin(s: Sys, a: Step, k: Kin, c: int)
    requires Inv(s) && Shaped(s.t) && Enabled(s, a) && Related(s.t, k) && IsSlot(c) && c != INIT
    requires !K.Empty(s.t.procs[c]) && !K.Cleared(s, a, c)
    ensures Shaped(Do(s, a).t) && ChildOf(Do(s, a).t, Next(s, a, k), c)
  {
    hide Queued, Inv, Forks, Do, K.Cleared, Related;
    K.InvForks(s);
    RelatedChild(s.t, k, c);
    LifeStep(s, a, c);
    SamePid(s, a, c);
    NotBorn(s, a, c);
    if a.ForkDone? {
      EmbryoOf(s, a.p);
      PidsDiffer(s, s.doing[a.p].child, c);
    }
    var q := s.t.procs[c].parent;
    if k.forker[s.t.procs[c].pid] !in k.exited {
      LifeStep(s, a, q);
      SamePid(s, a, q);
      ClearedZombie(s, a, q);
      if a.ExitStep? && a.p != q { PidsDiffer(s, a.p, q); }
    }
  }

  lemma {:induction false} RelatedChild(t: Table, k: Kin, c: int)
    requires Shaped(t) && Related(t, k) && IsSlot(c) && c != INIT && !K.Empty(t.procs[c])
    ensures ChildOf(t, k, c)
  {
  }

  lemma {:induction false} ExitedKin(s: Sys, a: Step, k: Kin, c: int)
    requires Inv(s) && Shaped(s.t) && Enabled(s, a) && Related(s.t, k) && IsSlot(c)
    ensures Shaped(Do(s, a).t)
    ensures var y, e := Do(s, a).t.procs[c], Next(s, a, k).exited;
            && (y.state != UNUSED && y.state != ZOMBIE ==> y.pid !in e)
            && (y.state == ZOMBIE ==> y.pid in e)
  {
    hide Queued, Inv, Forks, Do, FreeSlot, ZombieChild, WaitOutcome, ChildOf;
    K.InvForks(s);
    LifeStep(s, a, c);
    K.SlotStep(s, a, c);
    if !K.Empty(s.t.procs[c]) { TakenEmpty(s, a, c); }
    if a.ForkDone? { EmbryoOf(s, a.p); }
    if a.ExitStep? && a.p != c && s.t.procs[c].state != UNUSED { PidsDiffer(s, a.p, c); }
  }

  lemma {:induction false} KinStep(s: Sys, a: Step, k: Kin)
    requires Inv(s) && Shaped(s.t) && Enabled(s, a) && Related(s.t, k)
    ensures Shaped(Do(s, a).t) && Related(Do(s, a).t, Next(s, a, k))
  {
    hide Queued, Inv, Forks, Do, ChildOf;
    K.InvForks(s);
    K.SlotStep(s, a, 0);
    forall c | 0 <= c < NPROC && c != INIT && !K.Empty(Do(s, a).t.procs[c])
      ensures ChildOf(Do(s, a).t, Next(s, a, k), c)
    {
      KinSlot(s, a, k, c);
    }
    forall c | 0 <= c < NPROC
      ensures var y, e := Do(s, a).t.procs[c], Next(s, a, k).exited;
              && (y.state != UNUSED && y.state != ZOMBIE ==> y.pid !in e)
              && (y.state == ZOMBIE ==> y.pid in e)
    {
      ExitedKin(s, a, k, c);
    }
    if a.ExitStep? { PidsBelow(s, a.p); }
  }

  lemma {:induction false} PidsBelow(s: Sys, c: int)
    requires Inv(s) && Shaped(s.t) && IsSlot(c) && s.t.procs[c].state != UNUSED
    ensures s.t.procs[c].pid < s.t.nextpid
  {
    hide Queued, Forks, Families, Waiters, Quanta;
  }

  lemma {:induction false} KinSlot(s: Sys, a: Step, k: Kin, c: int)
    requires Inv(s) && Shaped(s.t) && Enabled(s, a) && Related(s.t, k) && IsSlot(c) && c != INIT
    requires Shaped(Do(s, a).t) && !K.Empty(Do(s, a).t.procs[c])
    ensures ChildOf(Do(s, a).t, Next(s, a, k), c)
  {
    hide Queued, Inv, Forks, Do, ChildOf, Related, FreeSlot, ZombieChild, WaitOutcome;
    K.InvForks(s);
    LifeStep(s, a, c);
    K.SlotStep(s, a, c);
    if p :| Bears(s, a, p, c) {
      BornKin(s, p, k, c);
    } else {
      ClearedZombie(s, a, c);
      OldKin(s, a, k, c);
    }
  }

  lemma {:induction false} KinRun(s: Sys, run: seq<Step>, k: Kin)
    requires Inv(s) && Shaped(s.t) && CanRun(s, run) && Related(s.t, k)
    ensures Shaped(After(s, run).t) && Related(After(s, run).t, Record(s, run, k))
    decreases |run|
  {
    hide Inv, Queued, Do, Enabled, Related, Next;
    if run != [] {
      StepInv(s, run[0]);
      KinStep(s, run[0], k);
      KinRun(Do(s, run[0]), run[1..], Next(s, run[0], k));
    }
  }

  /** In every reachable state each process but init is the child of the process that forked it, or of
      init if that has exited. */
  lemma {:induction false} Kinship(run: seq<Step>)
    requires CanRun(Start(), run)
    ensures Shaped(After(Start(), run).t) && Related(After(Start(), run).t, Record(Start(), run, Kin(map[], {})))
  {
    hide Inv, CanRun, After, Queued, Initial, Record;
    StartInv();
    InitialProcs();
    KinRun(Start(), run, Kin(map[], {}));
  }

  // ---- wait ----

  predicate ZombieOf(t: Table, p: int, c: int) {
    0 <= c < |t.procs| && t.procs[c].parent == p && t.procs[c].state == ZOMBIE
  }

  ghost predicate HasChild(t: Table, p: int) { exists c :: 0 <= c < |t.procs| && t.procs[c].parent == p }

  /** One pass of wait: it reaps the first zombie child; without one it fails, changing nothing, if p has
      no children or is killed; otherwise p sleeps on its own channel. */
  lemma {:induction false} WaitPass(s: Sys, p: int)
    requires Enabled(s, WaitStep(p))
    ensures var u := Do(s, WaitStep(p));
            && (forall c :: ZombieOf(s.t, p, c) && (forall j :: 0 <= j < c ==> !ZombieOf(s.t, p, j)) ==>
                  && u.reaped == s.reaped + [s.t.procs[c].pid]
                  && u.t == s.t.(procs := s.t.procs[c := s.t.procs[c].(pid := 0, parent := NULL, killed := false,
                                                                       state := UNUSED)]))
            && ((forall c :: !ZombieOf(s.t, p, c)) && (!HasChild(s.t, p) || s.t.procs[p].killed) ==> u == s)
            && ((forall c :: !ZombieOf(s.t, p, c)) && HasChild(s.t, p) && !s.t.procs[p].killed ==>
                  && u.reaped == s.reaped
                  && u.t == s.t.(procs := s.t.procs[p := s.t.procs[p].(state := SLEEPING, chan := OnProc(p))]))
  {
    hide Queued, ZombieChild;
    ZombieFacts(s.t, p);
    var z := ZombieChild(s.t, p);
    assert z < NPROC ==> ZombieOf(s.t, p, z);
    assert z == NPROC ==> forall c :: !ZombieOf(s.t, p, c);
    assert HasKids(s.t, p) <==> HasChild(s.t, p);
  }

  /** What wait returns: in every reachable state, the pid of a process that has exited and that p
      forked, or, for init, one whose forker has exited. */
  lemma {:induction false} WaitReturns(run: seq<Step>, p: int)
    requires CanRun(Start(), run) && Enabled(After(Start(), run), WaitStep(p))
    ensures var s := After(Start(), run);
            var u, k := Do(s, WaitStep(p)), Record(Start(), run, Kin(map[], {}));
            && (u.reaped == s.reaped <==> forall c :: !ZombieOf(s.t, p, c))
            && (u.reaped != s.reaped ==>
                  && |u.reaped| == |s.reaped| + 1
                  && var pid := u.reaped[|s.reaped|];
                     && u.reaped == s.reaped + [pid] && pid in k.exited && pid in k.forker
                     && (k.forker[pid] == s.t.procs[p].pid || (p == INIT && k.forker[pid] in k.exited)))
  {
    hide CanRun, After, Queued, Inv, Record, Initial, Do;
    var s := After(Start(), run);
    Kinship(run);
    StartInv();
    RunInv(Start(), run);
    WaitPass(s, p);
    ZombieFacts(s.t, p);
    var z := ZombieChild(s.t, p);
    if z < NPROC {
      assert ZombieOf(s.t, p, z) && forall j :: 0 <= j < z ==> !ZombieOf(s.t, p, j);
      InitNoZombie(s);
      RelatedChild(s.t, Record(Start(), run, Kin(map[], {})), z);
    } else {
      assert forall c :: !ZombieOf(s.t, p, c);
    }
  }

  /** Slot c holds what is left of the process with the pid. */
  predicate Corpse(t: Table, pid: nat, c: int) {
    0 <= c < |t.procs| && t.procs[c].state == ZOMBIE && t.procs[c].pid == pid
  }

  /** A pid that has exited has been returned by wait, or is that of a zombie. */
  ghost predicate Accounted(s: Sys, k: Kin) {
    forall pid :: pid in k.exited ==> pid in s.reaped || exists c :: Corpse(s.t, pid, c)
  }

  lemma {:induction false} ReapedGrows(s: Sys, a: Step, c: int)
    requires Forks(s) && Enabled(s, a) && IsSlot(c)
    ensures s.reaped <= Do(s, a).reaped
    ensures K.Cleared(s, a, c) ==> Do(s, a).reaped == s.reaped + [s.t.procs[c].pid]
  {
    hide Queued, Forks, ZombieChild;
  }

  lemma {:induction false} AccountedStep(s: Sys, a: Step, k: Kin, pid: nat)
    requires Inv(s) && Shaped(s.t) && Enabled(s, a) && Accounted(s, k) && pid in Next(s, a, k).exited
    ensures pid in Do(s, a).reaped || exists c :: Corpse(Do(s, a).t, pid, c)
  {
    hide Queued, Inv, Do, Forks, K.Cleared;
    K.InvForks(s);
    ReapedGrows(s, a, 0);
    if a.ExitStep? && s.t.procs[a.p].pid == pid {
      LifeStep(s, a, a.p);
      SamePid(s, a, a.p);
      ClearedByParent(s, a, a.p);
      assert Corpse(Do(s, a).t, pid, a.p);
    } else if pid !in s.reaped {
      var c :| Corpse(s.t, pid, c);
      ReapedGrows(s, a, c);
      LifeStep(s, a, c);
      SamePid(s, a, c);
      assert !K.Cleared(s, a, c) ==> Corpse(Do(s, a).t, pid, c);
    }
  }

  lemma {:induction false} AccountedRun(s: Sys, run: seq<Step>, k: Kin)
    requires Inv(s) && Shaped(s.t) && CanRun(s, run) && Accounted(s, k)
    ensures Accounted(After(s, run), Record(s, run, k))
    decreases |run|
  {
    hide Inv, Queued, Do, Enabled, Next;
    if run != [] {
      StepInv(s, run[0]);
      K.InvForks(Do(s, run[0]));
      forall pid | pid in Next(s, run[0], k).exited
        ensures pid in Do(s, run[0]).reaped || exists c :: Corpse(Do(s, run[0]).t, pid, c)
      {
        AccountedStep(s, run[0], k, pid);
      }
      AccountedRun(Do(s, run[0]), run[1..], Next(s, run[0], k));
    }
  }

  /** The pid is one for the process in slot p to wait for: it has exited, has not been returned, and was
      forked by that process or, for init, by one that has exited. */
  ghost predicate Awaited(s: Sys, k: Kin, p: int, pid: nat)
    requires Shaped(s.t) && IsSlot(p)
  {
    && pid in k.exited && pid !in s.reaped && pid in k.forker
    && (k.forker[pid] == s.t.procs[p].pid || (p == INIT && k.forker[pid] in k.exited))
  }

  /** In every reachable state, wait by p returns a pid exactly when there is one to wait for. */
  lemma {:induction false} WaitFinds(run: seq<Step>, p: int)
    requires CanRun(Start(), run) && Enabled(After(Start(), run), WaitStep(p))
    ensures var s := After(Start(), run);
            var k := Record(Start(), run, Kin(map[], {}));
            Do(s, WaitStep(p)).reaped != s.reaped <==> exists pid :: Awaited(s, k, p, pid)
  {
    hide CanRun, After, Queued, Inv, Record, Initial, Do, Awaited;
    var s := After(Start(), run);
    var k := Record(Start(), run, Kin(map[], {}));
    StartInv();
    RunInv(Start(), run);
    WaitReturns(run, p);
    AccountedRun(Start(), run, Kin(map[], {}));
    Kinship(run);
    forall c | ZombieOf(s.t, p, c) ensures Awaited(s, k, p, s.t.procs[c].pid) { ZombieAwaited(s, k, p, c); }
    forall pid | Awaited(s, k, p, pid) ensures exists c :: ZombieOf(s.t, p, c) {
      var c := AwaitedZombie(s, k, p, pid);
    }
  }

  lemma {:induction false} ZombieAwaited(s: Sys, k: Kin, p: int, c: int)
    requires Inv(s) && Shaped(s.t) && Related(s.t, k) && IsSlot(p) && ZombieOf(s.t, p, c)
    ensures Awaited(s, k, p, s.t.procs[c].pid)
  {
    hide Queued, Forks, Waiters, Quanta, Inv;
    InitNoZombie(s);
    RelatedChild(s.t, k, c);
    NotReaped(s, c);
  }

  lemma {:induction false} NotReaped(s: Sys, c: int)
    requires Inv(s) && Shaped(s.t) && IsSlot(c) && s.t.procs[c].state != UNUSED
    ensures s.t.procs[c].pid !in s.reaped
  {
    hide Queued, Forks, Families, Waiters, Quanta;
  }

  lemma {:induction false} AwaitedZombie(s: Sys, k: Kin, p: int, pid: nat) returns (c: int)
    requires Inv(s) && Shaped(s.t) && Related(s.t, k) && Accounted(s, k)
    requires IsSlot(p) && Alive(s.t.procs[p]) && Awaited(s, k, p, pid)
    ensures ZombieOf(s.t, p, c)
  {
    hide Queued, Forks, Waiters, Quanta, Inv;
    InitNoZombie(s);
    c :| Corpse(s.t, pid, c);
    RelatedChild(s.t, k, c);
    var q := s.t.procs[c].parent;
    if k.forker[pid] !in k.exited && q != p { PidsDiffer(s, q, p); }
  }

  lemma {:induction false} InitNoZombie(s: Sys)
    requires Inv(s)
    ensures Shaped(s.t) && s.t.procs[INIT].state != ZOMBIE
  {
    hide Queued, Forks, Waiters, Pids, Quanta;
    K.InvForks(s);
  }

  /** The exit of a child wakes a parent asleep in wait, and leaves a zombie for it. */
  lemma {:induction false} ExitWakesParent(s: Sys, c: int)
    requires Inv(s) && Enabled(s, ExitStep(c)) && IsSlot(s.t.procs[c].parent)
    ensures var p, u := s.t.procs[c].parent, Do(s, ExitStep(c)).t;
            && Shaped(u) && ZombieOf(u, p, c)
            && (s.t.procs[p].state == SLEEPING && s.t.procs[p].chan == OnProc(p) ==> u.procs[p].state == RUNNABLE)
  {
    hide Queued, Exit, Forks, Waiters, Pids, Quanta;
    ExitEffect(s.t, c);
  }

  /** So the next pass of the parent's wait, whatever happens in between, returns the pid of a child
      that has exited. */
  lemma {:induction false} NextWaitReturns(s: Sys, run: seq<Step>, p: int, c: int)
    requires Inv(s) && CanRun(s, run) && Shaped(s.t) && ZombieOf(s.t, p, c) && IsSlot(c)
    requires NoExit(run, p) && WaitStep(p) !in run
    requires Enabled(After(s, run), WaitStep(p))
    ensures var t := After(s, run);
            && ZombieOf(t.t, p, c)
            && exists z :: ZombieOf(t.t, p, z) && Do(t, WaitStep(p)).reaped == t.reaped + [t.t.procs[z].pid]
  {
    hide Queued, Inv, Do;
    ZombieStays(s, run, p, c);
    var t := After(s, run);
    ZombieFacts(t.t, p);
    WaitPass(t, p);
    var z := ZombieChild(t.t, p);
    assert ZombieOf(t.t, p, z) && forall j :: 0 <= j < z ==> !ZombieOf(t.t, p, j);
  }

  lemma {:induction false} ZombieStays(s: Sys, run: seq<Step>, p: int, c: int)
    requires Inv(s) && CanRun(s, run) && Shaped(s.t) && ZombieOf(s.t, p, c) && IsSlot(c)
    requires NoExit(run, p) && WaitStep(p) !in run
    ensures Shaped(After(s, run).t) && ZombieOf(After(s, run).t, p, c)
    decreases |run|
  {
    hide Queued, Inv, Do, Enabled;
    K.InvForks(s);
    if run != [] {
      StepInv(s, run[0]);
      LifeStep(s, run[0], c);
      NotBorn(s, run[0], c);
      ClearedByParent(s, run[0], c);
      assert forall k :: 0 <= k < |run| - 1 ==> run[1..][k] == run[k + 1];
      ZombieStays(Do(s, run[0]), run[1..], p, c);
    }
  }

  lemma {:induction false} ClearedByParent(s: Sys, a: Step, c: int)
    requires Shaped(s.t) && IsSlot(c)
    ensures K.Cleared(s, a, c) ==> a == WaitStep(s.t.procs[c].parent)
  {
    if a.WaitStep? && IsSlot(a.p) { ZombieFacts(s.t, a.p); }
  }
}
