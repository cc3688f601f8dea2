/** The imperative log takes the steps of the transition system: each call of begin_op, log_write,
    end_op and initlog leaves the log in the state that the corresponding steps lead to. */
module LogSteps {
  import opened Common
  import opened WriteAheadLog
  import opened LogProtocol

  /** The log is in state s, at rest or at any point of a commit.  (Commit empties the list before its
      last write, the transition system after it.) */
  ghost predicate Matches(l: Log, s: Sys)
    reads l
  {
    && l.Valid() && !s.phase.Recovering? && (l.committing <==> s.phase.Committing?)
    && s.disk == l.disk && s.dirty == l.dirty && |s.ops| == l.outstanding
    && (s.phase.Running? ==> s.list == l.List())
  }

  function Sum(a: seq<nat>): nat {
    if a == [] then 0 else Sum(a[..|a| - 1]) + a[|a| - 1]
  }

  /** With one more operation, those outstanding could each add as many blocks as `more` says and
      take the list past LOGSIZE. */
  ghost predicate Overflows(s: Sys, more: seq<nat>) {
    && |more| == |s.ops| + 1 && (forall i :: 0 <= i < |more| ==> more[i] <= MAXOPBLOCKS)
    && |s.list| + Sum(more) > LOGSIZE
  }

  lemma {:induction false} SumBound(a: seq<nat>)
    requires forall i :: 0 <= i < |a| ==> a[i] <= MAXOPBLOCKS
    ensures Sum(a) <= |a| * MAXOPBLOCKS
    ensures (forall i :: 0 <= i < |a| ==> a[i] == MAXOPBLOCKS) ==> Sum(a) == |a| * MAXOPBLOCKS
  {
    if a != [] { SumBound(a[..|a| - 1]); }
  }

  /** Admission.  An operation can begin exactly when no commit or recovery is under way and the
      operations then outstanding cannot overflow the log, whatever they add within MAXOPBLOCKS. */
  lemma {:induction false} Admission(lay: Layout, s: Sys, o: nat)
    requires o !in s.groupOf
    ensures Enabled(lay, s, Begin(o)) <==> s.phase.Running? && !exists more :: Overflows(s, more)
  {
    var most: seq<nat> := seq(|s.ops| + 1, _ => MAXOPBLOCKS);
    SumBound(most);
    assert Overflows(s, most) <==> |s.list| + (|s.ops| + 1) * MAXOPBLOCKS > LOGSIZE;
    forall more | Overflows(s, more) ensures Overflows(s, most) { SumBound(more); }
  }

  ghost function CommitSteps(n: nat): seq<Step> {
    if n == 0 then [CommitDone] else [CommitWrite] + CommitSteps(n - 1)
  }

  ghost function RecoverSteps(n: nat): seq<Step> {
    if n == 0 then [RecoverDone] else [RecoverWrite] + RecoverSteps(n - 1)
  }

  /** A commit that is not disturbed makes the rest of its writes and leaves the log empty. */
  lemma {:induction false} CommitRuns(lay: Layout, init: Disk, s: Sys)
    requires Inv(lay, init, s) && s.phase.Committing?
    ensures CommitReady(lay, s) && s.phase.k <= |Writes(lay, s)|
    ensures var run := CommitSteps(|Writes(lay, s)| - s.phase.k);
            && CanRun(lay, s, run)
            && var t := After(lay, s, run);
               && Inv(lay, init, t) && t.phase.Running? && t.ops == s.ops == [] && t.list == [] && t.dirty == map[]
               && t.disk == Apply(s.phase.before, Writes(lay, s))
    decreases |Writes(lay, s)| - s.phase.k
  {
    hide Inv, CommitWrites, RecoverWrites, Recoverable, Layout.Loggable, Layout.Fits, Apply, WritePanics, MayBegin;
    CommittingFacts(lay, init, s);
    var n := |Writes(lay, s)| - s.phase.k;
    var a := if n == 0 then CommitDone else CommitWrite;
    StepInv(lay, init, s, a);
    var t := Do(lay, s, a);
    if n == 0 {
      RestFacts(lay, init, t);
      assert CommitSteps(0)[1..] == [];
    } else {
      CommittingFacts(lay, init, t);
      assert Writes(lay, t) == Writes(lay, s);
      CommitRuns(lay, init, t);
      assert CommitSteps(n)[1..] == CommitSteps(n - 1);
    }
  }

  lemma {:induction false} CommittingFacts(lay: Layout, init: Disk, s: Sys)
    requires Inv(lay, init, s) && s.phase.Committing?
    ensures CommitReady(lay, s) && s.phase.k <= |Writes(lay, s)| && s.ops == []
    ensures InRange(Writes(lay, s), s.phase.before) && s.disk == Apply(s.phase.before, Writes(lay, s)[..s.phase.k])
    ensures Writes(lay, s)[..|Writes(lay, s)|] == Writes(lay, s)
  {
    hide Shows, Apply, Bnos;
  }

  lemma {:induction false} RestFacts(lay: Layout, init: Disk, s: Sys)
    requires Inv(lay, init, s) && s.phase.Running?
    ensures lay.Loggable(s.list) && s.dirty.Keys == Elems(s.list)
    ensures s.list == [] ==> s.dirty == map[]
  {
    hide Shows, Grouped;
  }

  /** So does a recovery. */
  lemma {:induction false} RecoveryRuns(lay: Layout, init: Disk, s: Sys)
    requires Inv(lay, init, s) && s.phase.Recovering?
    ensures RecoverReady(lay, s) && s.phase.k <= |Writes(lay, s)|
    ensures var run := RecoverSteps(|Writes(lay, s)| - s.phase.k);
            && CanRun(lay, s, run)
            && var t := After(lay, s, run);
               && Inv(lay, init, t) && t.phase.Running? && t.ops == s.ops == [] && t.list == [] && t.dirty == map[]
               && t.disk == Apply(s.phase.crashed, Writes(lay, s))
    decreases |Writes(lay, s)| - s.phase.k
  {
    hide Inv, CommitWrites, RecoverWrites, Recoverable, Layout.Loggable, Layout.Fits, Apply, WritePanics, MayBegin;
    RecoveringFacts(lay, init, s);
    var n := |Writes(lay, s)| - s.phase.k;
    var a := if n == 0 then RecoverDone else RecoverWrite;
    StepInv(lay, init, s, a);
    var t := Do(lay, s, a);
    if n == 0 {
      assert RecoverSteps(0)[1..] == [];
    } else {
      RecoveringFacts(lay, init, t);
      assert Writes(lay, t) == Writes(lay, s);
      RecoveryRuns(lay, init, t);
      assert RecoverSteps(n)[1..] == RecoverSteps(n - 1);
    }
  }

  lemma {:induction false} RecoveringFacts(lay: Layout, init: Disk, s: Sys)
    requires Inv(lay, init, s) && s.phase.Recovering?
    ensures RecoverReady(lay, s) && s.phase.k <= |Writes(lay, s)| && s.ops == [] && s.list == [] && s.dirty == map[]
    ensures InRange(Writes(lay, s), s.phase.crashed) && s.disk == Apply(s.phase.crashed, Writes(lay, s)[..s.phase.k])
    ensures Writes(lay, s)[..|Writes(lay, s)|] == Writes(lay, s)
  {
    hide ShowsAfterRecovery, Apply;
  }

  /** begin_op, also while a group commits. */
  method BeginOp(l: Log, ghost s: Sys, ghost o: nat) returns (ok: bool)
    requires Matches(l, s) && o !in s.groupOf
    modifies l`outstanding
    ensures ok <==> s.phase.Running? && !exists more :: Overflows(s, more)
    ensures ok <==> Enabled(l.lay, s, Begin(o))
    ensures Matches(l, if ok then Do(l.lay, s, Begin(o)) else s)
  {
    Admission(l.lay, s, o);
    ok := l.BeginOp();
  }

  method LogWrite(l: Log, ghost s: Sys, ghost i: nat, b: int, data: Block) returns (ok: bool)
    requires Matches(l, s) && s.phase.Running? && i < |s.ops| && l.lay.Home(b)
    modifies l`n, l`dirty, l`block
    ensures ok <==> Enabled(l.lay, s, Put(i, b, data))
    ensures Matches(l, if ok then Do(l.lay, s, Put(i, b, data)) else s)
  {
    ok := l.LogWrite(b, data);
  }

  /** log_write without an operation. */
  method WriteOutside(l: Log, ghost s: Sys, b: int, data: Block) returns (ok: bool)
    requires Matches(l, s) && s.ops == [] && l.lay.Home(b)
    modifies l`n, l`dirty, l`block
    ensures !ok && Matches(l, s)
  {
    ok := l.LogWrite(b, data);
  }

  /** The first critical section of end_op. */
  method EndFirst(l: Log, ghost s: Sys, ghost i: nat) returns (last: bool)
    requires Matches(l, s) && s.phase.Running? && i < |s.ops|
    modifies l`outstanding, l`committing
    ensures Enabled(l.lay, s, End(i)) && Matches(l, Do(l.lay, s, End(i)))
    ensures last <==> Do(l.lay, s, End(i)).phase.Committing?
  {
    var ok;
    ok, last := l.EndFirst();
  }

  /** Any write of a commit; after it begin_op is still refused. */
  method CommitOne(l: Log, ghost s: Sys, b: nat, data: Block)
    requires Matches(l, s) && Enabled(l.lay, s, CommitWrite)
    requires Write(b, data) == Writes(l.lay, s)[s.phase.k] && b < |l.disk|
    modifies l`disk, l`dirty, l`trace
    ensures Matches(l, Do(l.lay, s, CommitWrite))
  {
    hide CommitWrites, Apply, Layout.Loggable;
    l.Bwrite(b, data);
  }

  /** end_op and the commit it may run. */
  method EndOp(l: Log, ghost init: Disk, ghost s: Sys, ghost i: nat)
    requires Matches(l, s) && s.phase.Running? && Inv(l.lay, init, s) && i < |s.ops|
    modifies l
    ensures Enabled(l.lay, s, End(i))
    ensures |s.ops| > 1 ==> Matches(l, Do(l.lay, s, End(i)))
    ensures |s.ops| == 1 ==>
      var t := Do(l.lay, s, End(i));
      && t.phase.Committing? && CommitReady(l.lay, t)
      && CanRun(l.lay, t, CommitSteps(|Writes(l.lay, t)|))
      && Matches(l, After(l.lay, t, CommitSteps(|Writes(l.lay, t)|)))
  {
    hide Inv, CommitWrites, Apply, Layout.Loggable, Layout.Fits, Recoverable, CanRun, After, CommitSteps;
    RestFacts(l.lay, init, s);
    StepInv(l.lay, init, s, End(i));
    ghost var t := Do(l.lay, s, End(i));
    if |s.ops| == 1 {
      CommitRuns(l.lay, init, t);
    }
    var ok := l.EndOp();
  }

  /** The log is where a crash in state s and the whole recovery after it lead to. */
  ghost predicate Rebooted(lay: Layout, s: Sys, l: Log)
    reads l
  {
    var t := Do(lay, s, Crash);
    && t.phase.Recovering? && RecoverReady(lay, t)
    && CanRun(lay, t, RecoverSteps(|Writes(lay, t)|))
    && Matches(l, After(lay, t, RecoverSteps(|Writes(lay, t)|)))
  }

  /** A crash and the recovery by initlog at the next boot. */
  method Reboot(lay: Layout, disk: Disk, ghost init: Disk, ghost s: Sys) returns (l: Log)
    requires Inv(lay, init, s) && disk == s.disk
    ensures fresh(l) && l.lay == lay && Rebooted(lay, s, l)
  {
    hide Inv, RecoverWrites, CommitWrites, Apply, Layout.Loggable, Layout.Fits, CanRun, After, RecoverSteps;
    StepInv(lay, init, s, Crash);
    ghost var t := Do(lay, s, Crash);
    RecoveryRuns(lay, init, t);
    l := new Log(lay, disk);
  }
}
