/** The log as a transition system: concurrent operations, group commit one disk write at a
    time, crashes at any moment, recovery one disk write at a time.

    begin_op, log_write and end_op are single steps, as their critical sections are in
    kernel/log.c; filling a buffer and log_write on it are one step, because the buffer's sleep
    lock is held from bread to brelse.  A crash loses everything but the disk. */
module LogProtocol {
  import opened Common
  import opened WriteAheadLog
  import opened LogCrash

  /** One log_write: made by operation `op`, which began in group `group`. */
  datatype Update = Update(op: nat, group: nat, bno: int, data: Block)

  /** An outstanding operation and the number of blocks it has added to the log. */
  datatype Op = Op(id: nat, used: nat)

  datatype Phase =
    | Running
    | Committing(before: Disk, pinned: map<int, Block>, k: nat)
    | Recovering(crashed: Disk, k: nat)

  datatype Sys = Sys(
    disk: Disk,
    list: seq<int>,
    dirty: map<int, Block>,
    ops: seq<Op>,
    phase: Phase,
    // What has happened since the beginning, across all crashes:
    group: nat,                // number of the current group of operations
    groupOf: map<nat, nat>,    // the group each operation began in
    ended: set<nat>,           // operations that reached end_op
    committed: set<nat>,       // groups whose header write reached the disk
    issued: seq<Update>)       // every log_write, in order

  datatype Step =
    | Begin(o: nat)
    | Put(i: nat, bno: int, data: Block)
    | End(i: nat)
    | CommitWrite
    | CommitDone
    | Crash
    | RecoverWrite
    | RecoverDone

  ghost predicate Enabled(lay: Layout, s: Sys, a: Step) {
    match a
    case Begin(o) =>
      s.phase.Running? && MayBegin(|s.list|, |s.ops|, false) && o !in s.groupOf
    case Put(i, b, _) =>
      s.phase.Running? && i < |s.ops| && lay.Home(b) && !WritePanics(lay, |s.list|, |s.ops|)
    case End(i) => s.phase.Running? && i < |s.ops|
    case CommitWrite => CommitReady(lay, s) && s.phase.k < |Writes(lay, s)|
    case CommitDone => CommitReady(lay, s) && s.phase.k == |Writes(lay, s)|
    case Crash => true
    case RecoverWrite => RecoverReady(lay, s) && s.phase.k < |Writes(lay, s)|
    case RecoverDone => RecoverReady(lay, s) && s.phase.k == |Writes(lay, s)|
  }

  ghost predicate CommitReady(lay: Layout, s: Sys) {
    && s.phase.Committing? && lay.Fits(s.phase.before) && lay.Fits(s.disk)
    && lay.Loggable(s.list)
  }

  ghost predicate RecoverReady(lay: Layout, s: Sys) {
    s.phase.Recovering? && Recoverable(lay, s.phase.crashed) && lay.Fits(s.disk)
  }

  /** The disk writes that the current commit or recovery consists of. */
  ghost function Writes(lay: Layout, s: Sys): seq<Write>
    requires CommitReady(lay, s) || RecoverReady(lay, s)
  {
    if s.phase.Committing? then CommitWrites(lay, s.phase.before, s.list, s.phase.pinned)
    else RecoverWrites(lay, s.phase.crashed)
  }

  ghost function Do(lay: Layout, s: Sys, a: Step): Sys
    requires Enabled(lay, s, a)
  {
    match a
    case Begin(o) =>
      s.(ops := s.ops + [Op(o, 0)], groupOf := s.groupOf[o := s.group])
    case Put(i, b, data) =>
      var used := s.ops[i].used + if b in s.list then 0 else 1;
      s.(list := Absorb(s.list, b),
         dirty := s.dirty[b := data],
         ops := s.ops[i := s.ops[i].(used := used)],
         issued := s.issued + [Update(s.ops[i].id, s.group, b, data)])
    case End(i) =>
      var rest := s.ops[..i] + s.ops[i + 1..];
      s.(ops := rest,
         ended := s.ended + {s.ops[i].id},
         phase := if rest == [] then Committing(s.disk, s.dirty, 0) else Running)
    case CommitWrite =>
      var k := s.phase.k;
      var w := Writes(lay, s)[k];
      s.(disk := s.disk[w.bno := w.data],
         dirty := s.dirty - {w.bno},
         phase := Committing(s.phase.before, s.phase.pinned, k + 1),
         committed := if k == |s.list| then s.committed + {s.group} else s.committed)
    case CommitDone =>
      s.(phase := Running, list := [], group := s.group + 1)
    case Crash =>
      s.(list := [], dirty := map[], ops := [], phase := Recovering(s.disk, 0), group := s.group + 1)
    case RecoverWrite =>
      var w := Writes(lay, s)[s.phase.k];
      s.(disk := s.disk[w.bno := w.data], phase := Recovering(s.phase.crashed, s.phase.k + 1))
    case RecoverDone =>
      s.(phase := Running)
  }

  /** A freshly booted system with an empty log. */
  ghost function Boot(d: Disk): Sys {
    Sys(d, [], map[], [], Running, 0, map[], {}, {}, [])
  }

  ghost predicate CanRun(lay: Layout, s: Sys, run: seq<Step>)
    decreases |run|
  {
    run == [] || (Enabled(lay, s, run[0]) && CanRun(lay, Do(lay, s, run[0]), run[1..]))
  }

  ghost function After(lay: Layout, s: Sys, run: seq<Step>): Sys
    requires CanRun(lay, s, run)
    decreases |run|
  {
    if run == [] then s else After(lay, Do(lay, s, run[0]), run[1..])
  }

  ghost predicate InHome(lay: Layout, us: seq<Update>) {
    forall i :: 0 <= i < |us| ==> lay.Home(us[i].bno)
  }

  /** The disk `init` with the updates of the groups in `visible` applied in order. */
  ghost function Effect(lay: Layout, init: Disk, us: seq<Update>, visible: set<nat>): (r: Disk)
    requires lay.Fits(init) && InHome(lay, us)
    ensures |r| == |init|
  {
    if us == [] then init
    else
      var u := us[|us| - 1];
      var r := Effect(lay, init, us[..|us| - 1], visible);
      if u.group in visible then r[u.bno := u.data] else r
  }

  /** `e` shows the updates of exactly the groups in `visible`. */
  ghost predicate Shows(lay: Layout, init: Disk, us: seq<Update>, visible: set<nat>, d: Disk, dirty: map<int, Block>)
    requires lay.Fits(init) && InHome(lay, us)
  {
    lay.Fits(d) && forall b :: lay.Home(b) ==> View(d, dirty, b) == Effect(lay, init, us, visible)[b]
  }

  /** Every operation belongs to one group, and a committed group holds only ended operations. */
  ghost predicate Grouped(lay: Layout, s: Sys) {
    && InHome(lay, s.issued)
    && (forall i :: 0 <= i < |s.issued| ==>
          s.issued[i].op in s.groupOf && s.issued[i].group == s.groupOf[s.issued[i].op])
    && (forall o :: o in s.groupOf ==> s.groupOf[o] <= s.group)
    && s.ended <= s.groupOf.Keys
    && (forall g :: g in s.committed ==> g <= s.group)
    && (forall o :: o in s.groupOf && s.groupOf[o] in s.committed ==> o in s.ended)
    && (forall i :: 0 <= i < |s.ops| ==>
          s.ops[i].id in s.groupOf && s.groupOf[s.ops[i].id] == s.group && s.ops[i].id !in s.ended)
    && (forall i, j :: 0 <= i < j < |s.ops| ==> s.ops[i].id != s.ops[j].id)
    && (!s.phase.Running? ==> s.ops == [])
    && (!s.phase.Committing? ==> s.group !in s.committed)
    && if s.phase.Recovering? then forall o :: o in s.groupOf ==> s.groupOf[o] < s.group
       else forall o :: o in s.groupOf && s.groupOf[o] == s.group ==> o in s.ended || IsOutstanding(s.ops, o)
  }

  ghost predicate IsOutstanding(ops: seq<Op>, o: nat) {
    exists i :: 0 <= i < |ops| && ops[i].id == o
  }

  ghost function Bnos(ws: seq<Write>): set<int> {
    set i | 0 <= i < |ws| :: ws[i].bno
  }

  ghost predicate Inv(lay: Layout, init: Disk, s: Sys) {
    Grouped(lay, s) && Logged(s) && Durable(lay, init, s)
  }

  /** Every update of the current group is in the list until its commit is over. */
  ghost predicate Logged(s: Sys) {
    !s.phase.Recovering? ==>
      forall i :: 0 <= i < |s.issued| && s.issued[i].group == s.group ==> s.issued[i].bno in s.list
  }

  /** In every phase, what is on the disk and in the cache is the effect of some whole groups. */
  ghost predicate Durable(lay: Layout, init: Disk, s: Sys) {
    && lay.Fits(init) && lay.Fits(s.disk)
    && InHome(lay, s.issued)
    && match s.phase
       case Running =>
         && HeadList(s.disk[lay.start]) == []
         && lay.Loggable(s.list) && s.dirty.Keys == Elems(s.list)
         && Shows(lay, init, s.issued, s.committed, s.disk, map[])
         && Shows(lay, init, s.issued, s.committed + {s.group}, s.disk, s.dirty)
       case Committing(before, pinned, k) =>
         && CommitReady(lay, s)
         && HeadList(before[lay.start]) == []
         && pinned.Keys == Elems(s.list)
         && k <= |Writes(lay, s)| && s.disk == Apply(before, Writes(lay, s)[..k])
         && s.dirty == pinned - Bnos(Writes(lay, s)[..k])
         && (s.group in s.committed <==> k > |s.list|)
         && Shows(lay, init, s.issued, s.committed - {s.group}, before, map[])
         && Shows(lay, init, s.issued, s.committed + {s.group}, before, pinned)
       case Recovering(crashed, k) =>
         && RecoverReady(lay, s) && s.list == [] && s.dirty == map[]
         && k <= |Writes(lay, s)| && s.disk == Apply(crashed, Writes(lay, s)[..k])
         && ShowsAfterRecovery(lay, init, s.issued, s.committed, crashed)
  }

  ghost predicate ShowsAfterRecovery(lay: Layout, init: Disk, us: seq<Update>, visible: set<nat>, d: Disk)
    requires lay.Fits(init) && InHome(lay, us)
  {
    Recoverable(lay, d) &&
    forall b :: lay.Home(b) ==> Recovered(lay, d, b) == Effect(lay, init, us, visible)[b]
  }

  /** Groups that made no log_write do not matter. */
  lemma {:induction false} EffectIgnores(lay: Layout, init: Disk, us: seq<Update>, v: set<nat>, g: nat)
    requires lay.Fits(init) && InHome(lay, us)
    requires forall i :: 0 <= i < |us| ==> us[i].group != g
    ensures Effect(lay, init, us, v + {g}) == Effect(lay, init, us, v)
  {
    if us != [] {
      EffectIgnores(lay, init, us[..|us| - 1], v, g);
    }
  }

  lemma {:induction false} EffectSnoc(lay: Layout, init: Disk, us: seq<Update>, v: set<nat>, u: Update)
    requires lay.Fits(init) && InHome(lay, us) && lay.Home(u.bno)
    ensures InHome(lay, us + [u])
    ensures Effect(lay, init, us + [u], v) ==
            var r := Effect(lay, init, us, v); if u.group in v then r[u.bno := u.data] else r
  {
    assert (us + [u])[..|us|] == us;
  }

  /** Whatever the phase, a recovery started now would show exactly the committed groups. */
  lemma {:induction false} InvShows(lay: Layout, init: Disk, s: Sys)
    requires Durable(lay, init, s)
    ensures ShowsAfterRecovery(lay, init, s.issued, s.committed, s.disk)
  {
    hide Apply, CommitWrites, RecoverWrites, Effect;
    match s.phase
    case Running =>
    case Committing(before, pinned, k) =>
      CommitPrefix(lay, before, s.list, pinned, k);
      assert s.committed == if k <= |s.list| then s.committed - {s.group} else s.committed + {s.group};
    case Recovering(crashed, k) =>
      RecoverPrefix(lay, crashed, k);
  }

  lemma {:induction false} ApplyNext(d: Disk, ws: seq<Write>, k: nat)
    requires InRange(ws, d) && k < |ws|
    ensures Apply(d, ws[..k + 1]) == Apply(d, ws[..k])[ws[k].bno := ws[k].data]
    ensures Bnos(ws[..k + 1]) == Bnos(ws[..k]) + {ws[k].bno}
  {
    assert ws[..k + 1][..k] == ws[..k];
    assert forall i :: 0 <= i < k ==> ws[..k + 1][i] == ws[..k][i];
    assert ws[..k + 1][k] == ws[k];
  }

  lemma {:induction false} GroupedBegin(lay: Layout, s: Sys, o: nat)
    requires Grouped(lay, s) && Enabled(lay, s, Begin(o))
    ensures Grouped(lay, Do(lay, s, Begin(o)))
  {
    var t := Do(lay, s, Begin(o));
    assert t.ops[|s.ops|].id == o;
    forall p | IsOutstanding(s.ops, p) ensures IsOutstanding(t.ops, p) {
      var i :| 0 <= i < |s.ops| && s.ops[i].id == p;
      assert t.ops[i].id == p;
    }
  }

  lemma {:induction false} GroupedEnd(lay: Layout, s: Sys, i: nat)
    requires Grouped(lay, s) && Enabled(lay, s, End(i))
    ensures Grouped(lay, Do(lay, s, End(i)))
  {
    hide Writes, CommitReady, RecoverReady;
    var t := Do(lay, s, End(i));
    assert forall k :: 0 <= k < |t.ops| ==> t.ops[k] == s.ops[if k < i then k else k + 1];
    forall p | IsOutstanding(s.ops, p) && p !in t.ended ensures IsOutstanding(t.ops, p) {
      var j :| 0 <= j < |s.ops| && s.ops[j].id == p;
      assert t.ops[if j < i then j else j - 1].id == p;
    }
  }

  lemma {:induction false} GroupedPut(lay: Layout, s: Sys, i: nat, b: int, data: Block)
    requires Grouped(lay, s) && Enabled(lay, s, Put(i, b, data))
    ensures Grouped(lay, Do(lay, s, Put(i, b, data)))
  {
    var t := Do(lay, s, Put(i, b, data));
    assert forall j :: 0 <= j < |s.ops| ==> t.ops[j].id == s.ops[j].id;
  }

  lemma {:induction false} GroupedDisk(lay: Layout, s: Sys, a: Step)
    requires Grouped(lay, s) && Enabled(lay, s, a) && !a.Begin? && !a.End? && !a.Put?
    ensures Grouped(lay, Do(lay, s, a))
  {
    hide CommitWrites, RecoverWrites, Recoverable, Writes;
    assert !IsOutstanding([], 0);
  }

  lemma {:induction false} BeginInv(lay: Layout, init: Disk, s: Sys, o: nat)
    requires Durable(lay, init, s)
    requires Enabled(lay, s, Begin(o))
    ensures Durable(lay, init, Do(lay, s, Begin(o)))
  {
  }

  lemma {:induction false} PutInv(lay: Layout, init: Disk, s: Sys, i: nat, b: int, data: Block)
    requires Durable(lay, init, s)
    requires Enabled(lay, s, Put(i, b, data)) && s.group !in s.committed
    ensures Durable(lay, init, Do(lay, s, Put(i, b, data)))
  {
    hide Effect;
    var u := Update(s.ops[i].id, s.group, b, data);
    EffectSnoc(lay, init, s.issued, s.committed, u);
    EffectSnoc(lay, init, s.issued, s.committed + {s.group}, u);
  }

  lemma {:induction false} EndInv(lay: Layout, init: Disk, s: Sys, i: nat)
    requires Inv(lay, init, s) && Enabled(lay, s, End(i))
    ensures Durable(lay, init, Do(lay, s, End(i)))
  {
    hide Effect, CommitWrites;
    var t := Do(lay, s, End(i));
    if t.ops == [] {
      assert Writes(lay, t)[..0] == [];
      assert s.committed - {s.group} == s.committed;
      assert t.dirty == t.phase.pinned - Bnos([]);
    }
  }

  lemma {:induction false} CommitWriteInv(lay: Layout, init: Disk, s: Sys)
    requires Durable(lay, init, s)
    requires Enabled(lay, s, CommitWrite)
    ensures Durable(lay, init, Do(lay, s, CommitWrite))
  {
    hide Effect, CommitWrites, Apply, Bnos, Layout.Loggable;
    var t := Do(lay, s, CommitWrite);
    assert Writes(lay, t) == Writes(lay, s);
    ApplyNext(s.phase.before, Writes(lay, s), s.phase.k);
    assert t.committed - {t.group} == s.committed - {s.group};
    assert t.committed + {t.group} == s.committed + {s.group};
  }

  lemma {:induction false} CommitDoneInv(lay: Layout, init: Disk, s: Sys)
    requires Inv(lay, init, s) && Enabled(lay, s, CommitDone)
    ensures Durable(lay, init, Do(lay, s, CommitDone))
  {
    hide Effect, CommitWrites, Apply;
    var t := Do(lay, s, CommitDone);
    var ws := Writes(lay, s);
    assert ws[..|ws|] == ws;
    CommitFinishes(lay, s.phase.before, s.list, s.phase.pinned);
    assert t.dirty == map[] by {
      forall b | b in s.list ensures b in Bnos(ws) { }
    }
    assert s.committed == if s.list == [] then s.committed - {s.group} else s.committed + {s.group};
    if s.list == [] {
      assert s.phase.pinned == map[];
    }
    EffectIgnores(lay, init, s.issued, s.committed, t.group);
  }

  lemma {:induction false} CrashInv(lay: Layout, init: Disk, s: Sys)
    requires Enabled(lay, s, Crash) && Durable(lay, init, s)
    ensures Durable(lay, init, Do(lay, s, Crash))
  {
    hide Effect, Recovered, RecoverWrites, Layout.Loggable;
    InvShows(lay, init, s);
    var t := Do(lay, s, Crash);
    assert Writes(lay, t)[..0] == [];
  }

  lemma {:induction false} RecoverWriteInv(lay: Layout, init: Disk, s: Sys)
    requires Durable(lay, init, s)
    requires Enabled(lay, s, RecoverWrite)
    ensures Durable(lay, init, Do(lay, s, RecoverWrite))
  {
    hide Effect, Recovered, Recoverable, RecoverWrites, Apply, Layout.Loggable, Bnos;
    ApplyNext(s.phase.crashed, Writes(lay, s), s.phase.k);
    assert Writes(lay, Do(lay, s, RecoverWrite)) == Writes(lay, s);
  }

  lemma {:induction false} RecoverDoneInv(lay: Layout, init: Disk, s: Sys)
    requires Inv(lay, init, s) && Enabled(lay, s, RecoverDone)
    ensures Durable(lay, init, Do(lay, s, RecoverDone))
  {
    hide Effect, Recovered, RecoverWrites, Apply;
    assert Writes(lay, s)[..|Writes(lay, s)|] == Writes(lay, s);
    RecoverFinishes(lay, s.phase.crashed);
    EffectIgnores(lay, init, s.issued, s.committed, s.group);
  }

  lemma {:induction false} LoggedStep(lay: Layout, s: Sys, a: Step)
    requires Grouped(lay, s) && Logged(s) && Enabled(lay, s, a)
    ensures Logged(Do(lay, s, a))
  {
    hide CommitWrites, RecoverWrites, Recoverable, Writes, CommitReady, RecoverReady;
  }

  lemma {:induction false} StepInv(lay: Layout, init: Disk, s: Sys, a: Step)
    requires Inv(lay, init, s) && Enabled(lay, s, a)
    ensures Inv(lay, init, Do(lay, s, a))
    ensures s.committed <= Do(lay, s, a).committed && s.issued <= Do(lay, s, a).issued
  {
    hide Durable, Logged;
    LoggedStep(lay, s, a);
    match a
    case Begin(o) => GroupedBegin(lay, s, o); BeginInv(lay, init, s, o);
    case Put(i, b, data) => GroupedPut(lay, s, i, b, data); PutInv(lay, init, s, i, b, data);
    case End(i) => GroupedEnd(lay, s, i); EndInv(lay, init, s, i);
    case CommitWrite => GroupedDisk(lay, s, a); CommitWriteInv(lay, init, s);
    case CommitDone => GroupedDisk(lay, s, a); CommitDoneInv(lay, init, s);
    case Crash => GroupedDisk(lay, s, a); CrashInv(lay, init, s);
    case RecoverWrite => GroupedDisk(lay, s, a); RecoverWriteInv(lay, init, s);
    case RecoverDone => GroupedDisk(lay, s, a); RecoverDoneInv(lay, init, s);
  }

  lemma {:induction false} RunInv(lay: Layout, init: Disk, s: Sys, run: seq<Step>)
    requires Inv(lay, init, s) && CanRun(lay, s, run)
    ensures Inv(lay, init, After(lay, s, run))
    ensures s.committed <= After(lay, s, run).committed && s.issued <= After(lay, s, run).issued
    decreases |run|
  {
    hide Inv, Enabled;
    if run != [] {
      StepInv(lay, init, s, run[0]);
      RunInv(lay, init, Do(lay, s, run[0]), run[1..]);
    }
  }

  lemma {:induction false} BootInv(lay: Layout, init: Disk)
    requires lay.Fits(init) && HeadList(init[lay.start]) == []
    ensures Inv(lay, init, Boot(init))
  {
  }

  /** Whole operations only.  After any interleaving of operations, commits, crashes and
      recoveries, a recovery would leave exactly the initial disk with the updates of the
      committed groups applied in order; two updates of one operation are both visible or both
      not; and everything visible was written by operations that reached end_op. */
  lemma {:induction false} WholeOperations(lay: Layout, init: Disk, run: seq<Step>)
    requires lay.Fits(init) && HeadList(init[lay.start]) == []
    requires CanRun(lay, Boot(init), run)
    ensures var s := After(lay, Boot(init), run);
            && InHome(lay, s.issued)
            && ShowsAfterRecovery(lay, init, s.issued, s.committed, s.disk)
            && (forall i, j :: 0 <= i < |s.issued| && 0 <= j < |s.issued| && s.issued[i].op == s.issued[j].op ==>
                  (s.issued[i].group in s.committed <==> s.issued[j].group in s.committed))
            && (forall i :: 0 <= i < |s.issued| && s.issued[i].group in s.committed ==> s.issued[i].op in s.ended)
  {
    hide CanRun, After;
    BootInv(lay, init);
    RunInv(lay, init, Boot(init), run);
    InvShows(lay, init, After(lay, Boot(init), run));
  }

  /** Durability.  Once the commit of a group is over, all its updates are among those that
      recovery shows, after any further operations, commits, crashes and recoveries. */
  lemma {:induction false} Durability(lay: Layout, init: Disk, run: seq<Step>, later: seq<Step>)
    requires lay.Fits(init) && HeadList(init[lay.start]) == []
    requires CanRun(lay, Boot(init), run) && Enabled(lay, After(lay, Boot(init), run), CommitDone)
    requires CanRun(lay, Do(lay, After(lay, Boot(init), run), CommitDone), later)
    ensures var s := After(lay, Boot(init), run);
            var u := After(lay, Do(lay, s, CommitDone), later);
            && s.issued <= u.issued && InHome(lay, u.issued)
            && ShowsAfterRecovery(lay, init, u.issued, u.committed, u.disk)
            && forall i :: 0 <= i < |s.issued| && s.issued[i].group == s.group ==> u.issued[i].group in u.committed
  {
    var s := After(lay, Boot(init), run);
    var t := Do(lay, s, CommitDone);
    hide CanRun, After, Do, Enabled;
    BootInv(lay, init);
    RunInv(lay, init, Boot(init), run);
    CommitIsComplete(lay, init, s);
    StepInv(lay, init, s, CommitDone);
    RunInv(lay, init, t, later);
    InvShows(lay, init, After(lay, t, later));
  }

  lemma {:induction false} CommitIsComplete(lay: Layout, init: Disk, s: Sys)
    requires Inv(lay, init, s) && Enabled(lay, s, CommitDone)
    ensures forall i :: 0 <= i < |s.issued| && s.issued[i].group == s.group ==> s.group in s.committed
  {
    hide Grouped, Shows, Apply, Bnos;
  }

  /** While the system runs, a reader sees every update of the committed groups and of the
      current one; the logged block numbers are pairwise distinct and the dirty buffers are
      exactly the logged blocks. */
  lemma {:induction false} AtRest(lay: Layout, init: Disk, run: seq<Step>)
    requires lay.Fits(init) && HeadList(init[lay.start]) == []
    requires CanRun(lay, Boot(init), run) && After(lay, Boot(init), run).phase.Running?
    ensures var s := After(lay, Boot(init), run);
            && InHome(lay, s.issued)
            && Shows(lay, init, s.issued, s.committed + {s.group}, s.disk, s.dirty)
            && lay.Loggable(s.list)
            && s.dirty.Keys == Elems(s.list)
  {
    hide CanRun, After;
    BootInv(lay, init);
    RunInv(lay, init, Boot(init), run);
  }

  /** A commit or a recovery can always take its next write or finish. */
  lemma {:induction false} NeverStuck(lay: Layout, init: Disk, s: Sys)
    requires Inv(lay, init, s)
    ensures s.phase.Committing? ==> Enabled(lay, s, CommitWrite) || Enabled(lay, s, CommitDone)
    ensures s.phase.Recovering? ==> Enabled(lay, s, RecoverWrite) || Enabled(lay, s, RecoverDone)
  {
    hide Shows, ShowsAfterRecovery, Recoverable, CommitWrites, RecoverWrites, Apply, Bnos, Grouped, Layout.Loggable;
  }

  // ---- Log space reservation ----

  /** Log blocks promised to the outstanding operations and not yet used. */
  ghost function Unused(ops: seq<Op>): int {
    if ops == [] then 0 else Unused(ops[..|ops| - 1]) + MAXOPBLOCKS - ops[|ops| - 1].used
  }

  lemma {:induction false} UnusedConcat(a: seq<Op>, b: seq<Op>)
    ensures Unused(a + b) == Unused(a) + Unused(b)
  {
    if b == [] {
      assert a + b == a;
    } else {
      UnusedConcat(a, b[..|b| - 1]);
      assert (a + b)[..|a + b| - 1] == a + b[..|b| - 1];
    }
  }

  lemma {:induction false} UnusedSplit(ops: seq<Op>, i: nat)
    requires i < |ops|
    ensures Unused(ops) == Unused(ops[..i]) + (MAXOPBLOCKS - ops[i].used) + Unused(ops[i + 1..])
  {
    assert ops == ops[..i] + ([ops[i]] + ops[i + 1..]);
    UnusedConcat(ops[..i], [ops[i]] + ops[i + 1..]);
    UnusedConcat([ops[i]], ops[i + 1..]);
  }

  lemma {:induction false} UnusedBound(ops: seq<Op>)
    requires forall i :: 0 <= i < |ops| ==> ops[i].used <= MAXOPBLOCKS
    ensures 0 <= Unused(ops) <= |ops| * MAXOPBLOCKS
  {
    if ops != [] { UnusedBound(ops[..|ops| - 1]); }
  }

  /** The step adds no more than MAXOPBLOCKS blocks to the log for one operation. */
  ghost predicate Within(lay: Layout, s: Sys, a: Step)
    requires Enabled(lay, s, a)
  {
    a.Put? ==> a.bno in s.list || s.ops[a.i].used < MAXOPBLOCKS
  }

  ghost predicate CanRunWithin(lay: Layout, s: Sys, run: seq<Step>)
    ensures CanRunWithin(lay, s, run) ==> CanRun(lay, s, run)
    decreases |run|
  {
    run == [] ||
    (Enabled(lay, s, run[0]) && Within(lay, s, run[0]) && CanRunWithin(lay, Do(lay, s, run[0]), run[1..]))
  }

  ghost predicate Reserved(s: Sys) {
    && (forall i :: 0 <= i < |s.ops| ==> s.ops[i].used <= MAXOPBLOCKS)
    && |s.list| + Unused(s.ops) <= LOGSIZE
    && (!s.phase.Running? ==> s.ops == [])
  }

  lemma {:induction false} ReservedStep(lay: Layout, s: Sys, a: Step)
    requires Reserved(s) && Enabled(lay, s, a) && Within(lay, s, a)
    ensures Reserved(Do(lay, s, a))
  {
    hide Writes, Recoverable, Layout.Loggable, Unused;
    UnusedBound([]);
    match a
    case Begin(o) =>
      UnusedBound(s.ops);
      UnusedConcat(s.ops, [Op(o, 0)]);
      UnusedOne(Op(o, 0));
    case Put(i, b, data) =>
      UnusedUpdate(s.ops, i, Do(lay, s, a).ops[i]);
    case End(i) =>
      UnusedSplit(s.ops, i);
      UnusedConcat(s.ops[..i], s.ops[i + 1..]);
    case _ =>
  }

  lemma {:induction false} UnusedOne(o: Op)
    ensures Unused([o]) == MAXOPBLOCKS - o.used
  {
    assert [o][..0] == [];
  }

  lemma {:induction false} UnusedUpdate(ops: seq<Op>, i: nat, o: Op)
    requires i < |ops|
    ensures Unused(ops[i := o]) == Unused(ops) + ops[i].used - o.used
  {
    hide Unused;
    UnusedSplit(ops, i);
    UnusedSplit(ops[i := o], i);
    assert ops[i := o][..i] == ops[..i] && ops[i := o][i + 1..] == ops[i + 1..];
  }

  /** If every operation adds at most MAXOPBLOCKS blocks, the log never holds more than
      LOGSIZE, even counting what is still promised. */
  lemma {:induction false} Reservation(lay: Layout, s: Sys, run: seq<Step>)
    requires Reserved(s) && CanRunWithin(lay, s, run)
    ensures Reserved(After(lay, s, run))
    decreases |run|
  {
    hide Reserved, Enabled, Within;
    if run != [] {
      ReservedStep(lay, s, run[0]);
      Reservation(lay, Do(lay, s, run[0]), run[1..]);
    }
  }

  /** No operation that has budget left can run into a panic of log_write. */
  ghost predicate NeverPanics(lay: Layout, init: Disk) {
    forall run, i: nat ::
      CanRunWithin(lay, Boot(init), run) && HasBudget(After(lay, Boot(init), run), i) ==>
        !WritePanics(lay, |After(lay, Boot(init), run).list|, |After(lay, Boot(init), run).ops|)
  }

  ghost predicate HasBudget(s: Sys, i: nat) {
    s.phase.Running? && i < |s.ops| && s.ops[i].used < MAXOPBLOCKS
  }

  /** Three operations have added blocks base, base+1, ... to the log, filling their budgets in turn. */
  ghost predicate Filled(lay: Layout, s: Sys, m: nat) {
    && s.phase.Running? && |s.ops| == 3
    && |s.list| == m && (forall j :: 0 <= j < m ==> s.list[j] == lay.start + lay.size + j)
    && s.ops[0].used == (if m <= 10 then m else 10)
    && s.ops[1].used == (if m <= 10 then 0 else if m <= 20 then m - 10 else 10)
    && s.ops[2].used == (if m <= 20 then 0 else m - 20)
  }

  lemma {:induction false} Prepend(lay: Layout, s: Sys, a: Step, rest: seq<Step>) returns (run: seq<Step>)
    requires Enabled(lay, s, a) && Within(lay, s, a) && CanRunWithin(lay, Do(lay, s, a), rest)
    ensures CanRunWithin(lay, s, run) && After(lay, s, run) == After(lay, Do(lay, s, a), rest)
  {
    hide Enabled, Within;
    run := [a] + rest;
    assert run[1..] == rest;
  }

  lemma {:induction false} Fill(lay: Layout, s: Sys, j: nat, m: nat) returns (run: seq<Step>)
    requires Filled(lay, s, j) && j <= m <= LOGSIZE && m <= lay.size - 1
    requires lay.start + lay.size + LOGSIZE <= lay.total
    ensures CanRunWithin(lay, s, run) && Filled(lay, After(lay, s, run), m)
    decreases m - j
  {
    if j == m {
      run := [];
    } else {
      var i := if j < 10 then 0 else if j < 20 then 1 else 2;
      var a := Put(i, lay.start + lay.size + j, seq(WORDS, _ => 0));
      run := Fill(lay, Do(lay, s, a), j + 1, m);
      run := Prepend(lay, s, a, run);
    }
  }

  /** From boot, three operations within their budgets can add any m blocks the guard allows. */
  lemma {:induction false} FillFromBoot(lay: Layout, init: Disk, m: nat) returns (run: seq<Step>)
    requires m <= LOGSIZE && m <= lay.size - 1
    requires lay.start + lay.size + LOGSIZE <= lay.total
    ensures CanRunWithin(lay, Boot(init), run) && Filled(lay, After(lay, Boot(init), run), m)
  {
    var s1 := Do(lay, Boot(init), Begin(0));
    var s2 := Do(lay, s1, Begin(1));
    var s3 := Do(lay, s2, Begin(2));
    run := Fill(lay, s3, 0, m);
    hide CanRunWithin, After;
    run := Prepend(lay, s2, Begin(2), run);
    run := Prepend(lay, s1, Begin(1), run);
    run := Prepend(lay, Boot(init), Begin(0), run);
  }

  /** Operations with budget left are safe from "too big a transaction", whatever they write,
      exactly when the log area is larger than LOGSIZE: the header takes one of its blocks.  mkfs
      makes it exactly LOGSIZE, so there the LOGSIZE-th block of a full group panics. */
  lemma {:induction false} PanicFree(lay: Layout, init: Disk)
    requires 1 <= lay.size && lay.start + lay.size + LOGSIZE <= lay.total
    ensures NeverPanics(lay, init) <==> lay.size > LOGSIZE
  {
    if lay.size > LOGSIZE {
      forall run, i: nat | CanRunWithin(lay, Boot(init), run) && HasBudget(After(lay, Boot(init), run), i)
        ensures !WritePanics(lay, |After(lay, Boot(init), run).list|, |After(lay, Boot(init), run).ops|)
      {
        PanicsWhenFull(lay, init, run, i);
      }
    } else {
      var run := FillFromBoot(lay, init, lay.size - 1);
      assert HasBudget(After(lay, Boot(init), run), 2);
    }
  }

  /** The number of blocks at which the guard of log_write closes. */
  function Capacity(lay: Layout): int { Min(LOGSIZE, lay.size - 1) }

  /** The guard keeps the list within the capacity. */
  lemma {:induction false} ListFits(lay: Layout, s: Sys, run: seq<Step>)
    requires CanRun(lay, s, run) && |s.list| <= Capacity(lay)
    ensures |After(lay, s, run).list| <= Capacity(lay)
    decreases |run|
  {
    if run != [] {
      hide CommitWrites, RecoverWrites, Recoverable, Writes, CommitReady, RecoverReady;
      ListFits(lay, Do(lay, s, run[0]), run[1..]);
    }
  }

  /** When a log_write by an outstanding operation panics, for every run within the budgets and
      every write, adding a block or rewriting a logged one: exactly when the list has reached the
      capacity.  With a log area larger than LOGSIZE that takes every outstanding operation's
      whole budget; otherwise the capacity is lay.size - 1, below LOGSIZE. */
  lemma {:induction false} PanicsWhenFull(lay: Layout, init: Disk, run: seq<Step>, i: nat)
    requires 1 <= lay.size && CanRunWithin(lay, Boot(init), run)
    requires After(lay, Boot(init), run).phase.Running? && i < |After(lay, Boot(init), run).ops|
    ensures var s := After(lay, Boot(init), run);
            && (WritePanics(lay, |s.list|, |s.ops|) <==> |s.list| == Capacity(lay))
            && (lay.size > LOGSIZE ==> Capacity(lay) == LOGSIZE)
            && (lay.size <= LOGSIZE ==> Capacity(lay) == lay.size - 1)
            && (lay.size > LOGSIZE && WritePanics(lay, |s.list|, |s.ops|) ==> s.ops[i].used == MAXOPBLOCKS)
  {
    var s := After(lay, Boot(init), run);
    ListFits(lay, Boot(init), run);
    Reservation(lay, Boot(init), run);
    UnusedSplit(s.ops, i);
    UnusedBound(s.ops[..i]);
    UnusedBound(s.ops[i + 1..]);
  }

  /** No write that the budgets allow panics, not even the rewriting of a logged block. */
  ghost predicate AllWritesSafe(lay: Layout, init: Disk) {
    forall run, i: nat, b: int :: MayWrite(lay, init, run, i, b) ==>
      !WritePanics(lay, |After(lay, Boot(init), run).list|, |After(lay, Boot(init), run).ops|)
  }

  ghost predicate MayWrite(lay: Layout, init: Disk, run: seq<Step>, i: nat, b: int) {
    CanRunWithin(lay, Boot(init), run) &&
    var s := After(lay, Boot(init), run);
    s.phase.Running? && i < |s.ops| && (b in s.list || s.ops[i].used < MAXOPBLOCKS)
  }

  /** Absorption does not help once the log is full.  Whatever the size of the log area, three
      operations within their budgets can reach a state in which the list has reached the
      capacity and rewriting a block that is already logged panics. */
  lemma {:induction false} FullLogPanics(lay: Layout, init: Disk) returns (run: seq<Step>)
    requires 2 <= lay.size && lay.start + lay.size + LOGSIZE <= lay.total
    ensures CanRunWithin(lay, Boot(init), run)
    ensures var s := After(lay, Boot(init), run);
            && s.phase.Running? && |s.ops| == 3 && |s.list| == Capacity(lay)
            && lay.start + lay.size in s.list && WritePanics(lay, |s.list|, |s.ops|)
    ensures MayWrite(lay, init, run, 0, lay.start + lay.size) && !AllWritesSafe(lay, init)
  {
    run := FillFromBoot(lay, init, Capacity(lay));
    var s := After(lay, Boot(init), run);
    assert s.list[0] == lay.start + lay.size;
    assert MayWrite(lay, init, run, 0, lay.start + lay.size);
  }
}
