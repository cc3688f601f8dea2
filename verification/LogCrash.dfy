/** Crash atomicity of the log: what recovery makes of the disk left by any prefix of the
    writes of commit, followed by any number of recoveries that were themselves cut short. */
module LogCrash {
  import opened WriteAheadLog

  /** What home block `b` holds once a recovery started on `d` has finished. */
  ghost function Recovered(lay: Layout, d: Disk, b: int): (r: Block)
    requires Recoverable(lay, d) && lay.Home(b)
  {
    var list := HeadList(d[lay.start]);
    if b in list then
      var i :| 0 <= i < |list| && list[i] == b;
      d[lay.start + i + 1]
    else d[b]
  }

  ghost predicate Targets(ws: seq<Write>, b: int) {
    exists i :: 0 <= i < |ws| && ws[i].bno == b
  }

  lemma {:induction false} ApplyMiss(d: Disk, ws: seq<Write>, b: nat)
    requires InRange(ws, d) && b < |d| && !Targets(ws, b)
    ensures Apply(d, ws)[b] == d[b]
  {
    if ws != [] {
      var k := |ws| - 1;
      assert ws[k].bno != b;
      forall i | 0 <= i < k ensures ws[..k][i].bno != b { assert ws[i].bno != b; }
      ApplyMiss(d, ws[..k], b);
    }
  }

  lemma {:induction false} ApplyHit(d: Disk, ws: seq<Write>, i: nat)
    requires InRange(ws, d) && i < |ws|
    requires forall j :: i < j < |ws| ==> ws[j].bno != ws[i].bno
    ensures Apply(d, ws)[ws[i].bno] == ws[i].data
  {
    var k := |ws| - 1;
    if i < k {
      ApplyHit(d, ws[..k], i);
    }
  }

  lemma {:induction false} HeadRoundTrip(b: Block, list: seq<int>)
    requires |list| <= LOGSIZE
    ensures HeadList(HeadBlock(b, list)) == list
  {
  }

  /** The disk after the first `k` home writes of an install. */
  lemma {:induction false} InstallPrefix(lay: Layout, d: Disk, list: seq<int>, k: nat)
    requires lay.Fits(d) && lay.Loggable(list) && k <= |list|
    ensures InRange(InstallWrites(lay, d, list), d)
    ensures var e := Apply(d, InstallWrites(lay, d, list)[..k]);
            && (forall b :: lay.InLog(b) ==> e[b] == d[b])
            && (forall b :: lay.Home(b) && b !in list[..k] ==> e[b] == d[b])
            && (forall i :: 0 <= i < k ==> e[list[i]] == d[lay.start + i + 1])
  {
    var ws := InstallWrites(lay, d, list);
    var e := Apply(d, ws[..k]);
    forall b | 0 <= b < |d| && b !in list[..k] ensures e[b] == d[b] {
      forall i | 0 <= i < k ensures ws[..k][i].bno != b { assert list[..k][i] != b; }
      ApplyMiss(d, ws[..k], b);
    }
    forall i | 0 <= i < k ensures e[list[i]] == d[lay.start + i + 1] {
      ApplyHit(d, ws[..k], i);
    }
    forall b | lay.InLog(b) ensures b !in list[..k] { }
  }

  /** Recovery may be cut after any number of its writes: starting over gives the same blocks. */
  lemma {:induction false} RecoverPrefix(lay: Layout, d: Disk, k: nat)
    requires Recoverable(lay, d) && k <= |RecoverWrites(lay, d)|
    ensures Recoverable(lay, Apply(d, RecoverWrites(lay, d)[..k]))
    ensures forall b :: lay.Home(b) ==>
              Recovered(lay, Apply(d, RecoverWrites(lay, d)[..k]), b) == Recovered(lay, d, b)
  {
    hide Apply, HeadBlock;
    var list, ws := HeadList(d[lay.start]), RecoverWrites(lay, d);
    var a, e := InstallWrites(lay, d, list), Apply(d, ws[..k]);
    if k <= |list| {
      InstallPrefix(lay, d, list, k);
      assert ws[..k] == a[..k];
    } else {
      RecoverFinishes(lay, d);
      assert ws[..k] == ws;
    }
  }

  /** A recovery that runs to the end leaves exactly the recovered blocks and an empty header. */
  lemma {:induction false} RecoverFinishes(lay: Layout, d: Disk)
    requires Recoverable(lay, d)
    ensures var e := Apply(d, RecoverWrites(lay, d));
            && HeadList(e[lay.start]) == []
            && (forall b :: lay.Home(b) ==> e[b] == Recovered(lay, d, b))
  {
    hide Apply, HeadBlock, HeadList;
    var list := HeadList(d[lay.start]);
    var a := InstallWrites(lay, d, list);
    assert a[..|list|] == a && list[..|list|] == list;
    InstallPrefix(lay, d, list, |list|);
    var d1 := Apply(d, a);
    ApplySnoc(d, a, HeadWrite(lay, d1, [])[0]);
    HeadRoundTrip(d1[lay.start], []);
  }

  /** The disk at the commit point: the log holds the cached blocks, the header lists them and
      the home blocks are untouched. */
  ghost predicate AtCommitPoint(lay: Layout, d: Disk, list: seq<int>, dirty: map<int, Block>, h: Disk) {
    && lay.Fits(d) && lay.Fits(h) && lay.Loggable(list)
    && HeadList(h[lay.start]) == list
    && (forall i :: 0 <= i < |list| ==> h[lay.start + i + 1] == View(d, dirty, list[i]))
    && (forall b :: lay.Home(b) ==> h[b] == d[b])
  }

  lemma {:induction false} LogWritesLand(lay: Layout, d: Disk, list: seq<int>, dirty: map<int, Block>, k: nat)
    requires lay.Fits(d) && lay.Loggable(list) && k <= |list|
    ensures InRange(LogWrites(lay, d, list, dirty), d)
    ensures var e := Apply(d, LogWrites(lay, d, list, dirty)[..k]);
            && (forall i :: 0 <= i < k ==> e[lay.start + i + 1] == View(d, dirty, list[i]))
            && (forall b :: lay.Home(b) ==> e[b] == d[b])
            && e[lay.start] == d[lay.start]
  {
    var a := LogWrites(lay, d, list, dirty)[..k];
    forall i | 0 <= i < k ensures Apply(d, a)[lay.start + i + 1] == View(d, dirty, list[i]) {
      ApplyHit(d, a, i);
    }
    forall b | lay.Home(b) || b == lay.start ensures Apply(d, a)[b] == d[b] {
      ApplyMiss(d, a, b);
    }
  }

  /** The header write is the commit point, and everything after it is what recovery does. */
  lemma {:induction false} CommitSplits(lay: Layout, d: Disk, list: seq<int>, dirty: map<int, Block>)
    returns (a: seq<Write>, h: Disk)
    requires lay.Fits(d) && lay.Loggable(list) && list != []
    ensures a == LogWrites(lay, d, list, dirty)
    ensures AtCommitPoint(lay, d, list, dirty, h)
    ensures CommitWrites(lay, d, list, dirty) ==
            a + HeadWrite(lay, Apply(d, a), list) + RecoverWrites(lay, h)
    ensures h == Apply(d, a + HeadWrite(lay, Apply(d, a), list))
  {
    hide Apply, HeadBlock, HeadList, View;
    a := LogWrites(lay, d, list, dirty);
    LogWritesLand(lay, d, list, dirty, |list|);
    assert a[..|list|] == a;
    var d1 := Apply(d, a);
    var w := HeadWrite(lay, d1, list);
    ApplySnoc(d, a, w[0]);
    ApplyConcat(d, a, w);
    assert w == [w[0]];
    h := Apply(d, a + w);
    HeadRoundTrip(d1[lay.start], list);
    Reassociate([], a, w, InstallWrites(lay, h, list), HeadWrite(lay, Apply(h, InstallWrites(lay, h, list)), []));
  }

  /** Recovery on `e` ends with the home blocks of `d` overlaid by `dirty`. */
  ghost predicate RecoversTo(lay: Layout, e: Disk, d: Disk, dirty: map<int, Block>) {
    && Recoverable(lay, e) && lay.Fits(d)
    && forall b :: lay.Home(b) ==> Recovered(lay, e, b) == View(d, dirty, b)
  }

  lemma {:induction false} CommitPointRecovers(lay: Layout, d: Disk, list: seq<int>, dirty: map<int, Block>, h: Disk)
    requires AtCommitPoint(lay, d, list, dirty, h) && dirty.Keys == Elems(list)
    ensures RecoversTo(lay, h, d, dirty)
  {
  }

  /** A list of writes cut inside its tail, when the tail is what recovery would do there. */
  lemma {:induction false} CutInRecovery(lay: Layout, d: Disk, dirty: map<int, Block>, ws: seq<Write>, a: seq<Write>,
        k: nat)
    requires lay.Fits(d) && InRange(ws, d) && InRange(a, d)
    requires RecoversTo(lay, Apply(d, a), d, dirty)
    requires ws == a + RecoverWrites(lay, Apply(d, a)) && |a| <= k <= |ws|
    ensures RecoversTo(lay, Apply(d, ws[..k]), d, dirty)
  {
    hide Apply, RecoverWrites, Recovered, View;
    var h := Apply(d, a);
    var t := RecoverWrites(lay, h)[..k - |a|];
    RecoverPrefix(lay, h, k - |a|);
    assert ws[..k] == a + t;
    ApplyConcat(d, a, t);
  }

  lemma {:induction false} CutBeforeHeader(lay: Layout, d: Disk, list: seq<int>, dirty: map<int, Block>,
        ws: seq<Write>, k: nat)
    requires lay.Fits(d) && lay.Loggable(list) && HeadList(d[lay.start]) == [] && InRange(ws, d)
    requires LogWrites(lay, d, list, dirty) <= ws && k <= |list|
    ensures RecoversTo(lay, Apply(d, ws[..k]), d, map[])
  {
    assert ws[..k] == LogWrites(lay, d, list, dirty)[..k];
    LogWritesLand(lay, d, list, dirty, k);
  }

  lemma {:induction false} EmptyCommit(lay: Layout, d: Disk, dirty: map<int, Block>, k: nat)
    requires lay.Fits(d) && lay.Loggable([]) && HeadList(d[lay.start]) == []
    requires k <= |CommitWrites(lay, d, [], dirty)|
    ensures k == 0 && RecoversTo(lay, Apply(d, CommitWrites(lay, d, [], dirty)[..k]), d, map[])
  {
    assert CommitWrites(lay, d, [], dirty)[..k] == [];
  }

  /** A commit cut before its header write has no effect; one cut after it has all of it. */
  lemma {:induction false} CommitPrefix(lay: Layout, d: Disk, list: seq<int>, dirty: map<int, Block>, k: nat)
    requires lay.Fits(d) && lay.Loggable(list) && HeadList(d[lay.start]) == []
    requires dirty.Keys == Elems(list)
    requires k <= |CommitWrites(lay, d, list, dirty)|
    ensures RecoversTo(lay, Apply(d, CommitWrites(lay, d, list, dirty)[..k]), d,
                       if k <= |list| then map[] else dirty)
  {
    hide Apply, CommitWrites, LogWrites, RecoverWrites, RecoversTo;
    var ws := CommitWrites(lay, d, list, dirty);
    if list == [] {
      EmptyCommit(lay, d, dirty, k);
    } else {
      var a, h := CommitSplits(lay, d, list, dirty);
      if k <= |list| {
        CutBeforeHeader(lay, d, list, dirty, ws, k);
      } else {
        CommitPointRecovers(lay, d, list, dirty, h);
        CutInRecovery(lay, d, dirty, ws, a + HeadWrite(lay, Apply(d, a), list), k);
      }
    }
  }

  /** A commit that runs to the end installs every cached block and empties the header. */
  lemma {:induction false} CommitFinishes(lay: Layout, d: Disk, list: seq<int>, dirty: map<int, Block>)
    requires lay.Fits(d) && lay.Loggable(list) && HeadList(d[lay.start]) == []
    requires dirty.Keys == Elems(list)
    ensures var e := Apply(d, CommitWrites(lay, d, list, dirty));
            && HeadList(e[lay.start]) == []
            && (forall b :: lay.Home(b) ==> e[b] == View(d, dirty, b))
    ensures forall i :: 0 <= i < |list| ==> Targets(CommitWrites(lay, d, list, dirty), list[i])
  {
    if list != [] {
      NonEmptyCommitFinishes(lay, d, list, dirty);
    }
  }

  lemma {:induction false} NonEmptyCommitFinishes(lay: Layout, d: Disk, list: seq<int>, dirty: map<int, Block>)
    requires lay.Fits(d) && lay.Loggable(list) && list != []
    requires dirty.Keys == Elems(list)
    ensures var e := Apply(d, CommitWrites(lay, d, list, dirty));
            && HeadList(e[lay.start]) == []
            && (forall b :: lay.Home(b) ==> e[b] == View(d, dirty, b))
    ensures forall i :: 0 <= i < |list| ==> Targets(CommitWrites(lay, d, list, dirty), list[i])
  {
    hide CommitWrites, Recovered, Apply, View;
    var a, h := CommitSplits(lay, d, list, dirty);
    var w, t := a + HeadWrite(lay, Apply(d, a), list), RecoverWrites(lay, h);
    ApplyConcat(d, w, t);
    CommitPointRecovers(lay, d, list, dirty, h);
    RecoverFinishes(lay, h);
    forall i | 0 <= i < |list| ensures Targets(w + t, list[i]) {
      assert (w + t)[|w| + i] == t[i] == InstallWrites(lay, h, list)[i];
    }
  }

  /** Boot after boot, boot i crashes after `cuts[i]` writes of its recovery. */
  ghost function AfterCrashes(lay: Layout, d: Disk, cuts: seq<nat>): (r: Disk)
    requires Recoverable(lay, d)
    ensures Recoverable(lay, r)
    decreases |cuts|
  {
    if cuts == [] then d
    else
      var ws := RecoverWrites(lay, d);
      var k := if cuts[0] <= |ws| then cuts[0] else |ws|;
      RecoverPrefix(lay, d, k);
      AfterCrashes(lay, Apply(d, ws[..k]), cuts[1..])
  }

  lemma {:induction false} CrashesAreInvisible(lay: Layout, d: Disk, cuts: seq<nat>)
    requires Recoverable(lay, d)
    ensures forall b :: lay.Home(b) ==>
              Recovered(lay, AfterCrashes(lay, d, cuts), b) == Recovered(lay, d, b)
    decreases |cuts|
  {
    if cuts != [] {
      var ws := RecoverWrites(lay, d);
      var k := if cuts[0] <= |ws| then cuts[0] else |ws|;
      RecoverPrefix(lay, d, k);
      CrashesAreInvisible(lay, Apply(d, ws[..k]), cuts[1..]);
    }
  }

  /** Crash atomicity.  A commit is cut after `k` of its writes, then any number of recoveries
      are cut anywhere, then one finishes: every home block is as it was before the commit if
      the header write had not happened, every home block is as in the cache if it had, and the
      header is empty again. */
  lemma {:induction false} CrashAtomicity(lay: Layout, d: Disk, list: seq<int>, dirty: map<int, Block>, k: nat,
        cuts: seq<nat>)
    requires lay.Fits(d) && lay.Loggable(list) && HeadList(d[lay.start]) == []
    requires dirty.Keys == Elems(list)
    requires k <= |CommitWrites(lay, d, list, dirty)|
    ensures Recoverable(lay, Apply(d, CommitWrites(lay, d, list, dirty)[..k]))
    ensures var crashed := AfterCrashes(lay, Apply(d, CommitWrites(lay, d, list, dirty)[..k]), cuts);
            var final := Apply(crashed, RecoverWrites(lay, crashed));
            && HeadList(final[lay.start]) == []
            && (k <= |list| ==> forall b :: lay.Home(b) ==> final[b] == d[b])
            && (k > |list| ==> forall b :: lay.Home(b) ==> final[b] == View(d, dirty, b))
  {
    var e := Apply(d, CommitWrites(lay, d, list, dirty)[..k]);
    CommitPrefix(lay, d, list, dirty, k);
    CrashesAreInvisible(lay, e, cuts);
    RecoverFinishes(lay, AfterCrashes(lay, e, cuts));
  }
}
