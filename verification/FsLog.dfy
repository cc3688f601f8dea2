/** The file system on top of the log.  Operations run whole calls of writei and itrunc, piece by
    piece and interleaved; each piece reaches the log as log_writes; operations commit in groups; and
    crashes strike anywhere, also between the log_writes of one piece.  Whatever happens, the disk
    recovers to a file system in which every file shows whole calls only. */
module FsLog {
  import opened Common
  import opened FsBlocks
  import opened FsState
  import opened FsFile
  import R = FsRuns
  import W = WriteAheadLog
  import C = LogCrash
  import L = LogProtocol

  // ---- Blocks as the log sees them ----

  function Words(b: Block): W.Block {
    seq(W.WORDS, i requires 0 <= i < W.WORDS => WordAt(b, i))
  }

  function Image(d: seq<Block>): (r: W.Disk)
    ensures |r| == |d|
  {
    seq(|d|, b requires 0 <= b < |d| => Words(d[b]))
  }

  /** The words of a block determine its bytes. */
  lemma {:induction false} WordsDetermine(b: Block, c: Block)
    requires Words(b) == Words(c)
    ensures b == c
  {
    forall x | 0 <= x < BSIZE ensures b[x] == c[x] {
      assert Words(b)[x / 4] == WordAt(b, x / 4) && Words(c)[x / 4] == WordAt(c, x / 4);
      SameBytes(b, c, x / 4);
    }
  }

  lemma {:induction false} SameBytes(b: Block, c: Block, i: nat)
    requires i < NINDIRECT && WordAt(b, i) == WordAt(c, i)
    ensures forall k :: 4 * i <= k < 4 * i + 4 ==> b[k] == c[k]
  {
    var b1, b2, b3 := Val(b[4 * i + 1]), Val(b[4 * i + 2]), Val(b[4 * i + 3]);
    var c1, c2, c3 := Val(c[4 * i + 1]), Val(c[4 * i + 2]), Val(c[4 * i + 3]);
    LowByte(b[4 * i], c[4 * i], b1 + 0x100 * b2 + 0x1_0000 * b3, c1 + 0x100 * c2 + 0x1_0000 * c3);
    LowByte(b[4 * i + 1], c[4 * i + 1], b2 + 0x100 * b3, c2 + 0x100 * c3);
    LowByte(b[4 * i + 2], c[4 * i + 2], b3, c3);
  }

  lemma {:induction false} LowByte(x: Byte, y: Byte, p: nat, q: nat)
    requires x + 0x100 * p == y + 0x100 * q
    ensures x == y && p == q
  {
  }

  /** The home blocks of disk e, in the log's terms, are those of d. */
  ghost predicate Mirrors(lay: W.Layout, d: seq<Block>, e: W.Disk) {
    |d| == |e| == lay.total && forall b :: lay.Home(b) ==> Words(d[b]) == e[b]
  }

  // ---- Calls and what they come to ----

  datatype Call = Write(i: nat, off: nat, p: seq<Byte>) | Truncate(i: nat)

  /** The contents of the file after a whole call. */
  function Result(c: seq<Byte>, a: Call): seq<Byte> {
    match a
    case Write(_, off, p) => if off <= |c| then Overwrite(c, off, p) else c
    case Truncate(_) => []
  }

  /** A call completed by operation op, which began in group `group`. */
  datatype Done = Done(op: nat, group: nat, call: Call)

  /** File i after the whole calls of the groups in kept, in order. */
  function Replay(c: seq<Byte>, i: nat, done: seq<Done>, kept: set<nat>): seq<Byte> {
    if done == [] then c
    else
      var last := done[|done| - 1];
      var r := Replay(c, i, done[..|done| - 1], kept);
      if last.group in kept && last.call.i == i then Result(r, last.call) else r
  }

  function Files(files: seq<seq<Byte>>, done: seq<Done>, kept: set<nat>): (r: seq<seq<Byte>>)
    ensures |r| == |files|
  {
    seq(|files|, i requires 0 <= i < |files| => Replay(files[i], i, done, kept))
  }

  // ---- The two layers together ----

  /** A writei under way, which has stored k bytes. */
  datatype Writing = Writing(i: nat, off: nat, p: seq<Byte>, k: nat)

  datatype State = State(
    log: L.Sys,
    // The file system as the processes see it, and its files without the writes under way:
    st: St, own: Owners, files: seq<seq<Byte>>,
    busy: map<nat, Writing>,      // the writei under way in an operation
    // The same as of the last commit:
    base: St, bown: Owners, saved: seq<seq<Byte>>,
    // What has happened since the beginning, across all crashes:
    done: seq<Done>,              // the calls completed, in order
    kept: set<nat>)               // groups whose header is on disk, or that had nothing to commit

  /** A log_write, with the block as the file system sees it. */
  datatype Store = Store(b: int, data: Block)

  datatype Step =
    | Log(a: L.Step)                                                  // begin_op, end_op, commit, recovery
    | Crash(torn: seq<L.Step>)                                        // after some log_writes of unfinished pieces
    | Open(n: nat, i: nat, off: nat, p: seq<Byte>)                    // ilock and the checks of writei
    | Piece(n: nat, t: St, own: Owners, puts: seq<Store>)             // one round of its loop
    | Close(n: nat, t: St, puts: seq<Store>)                          // its end
    | Trunc(n: nat, i: nat, t: St, own: Owners, puts: seq<Store>)     // itrunc

  ghost predicate InDisk(lay: W.Layout, puts: seq<Store>) {
    forall k :: 0 <= k < |puts| ==> lay.Home(puts[k].b)
  }

  /** The disk as seen through the cache after the log_writes. */
  ghost function Stored(lay: W.Layout, d: seq<Block>, puts: seq<Store>): (r: seq<Block>)
    requires |d| == lay.total && InDisk(lay, puts)
    ensures |r| == |d|
  {
    if puts == [] then d
    else
      var k := |puts| - 1;
      Stored(lay, d, puts[..k])[puts[k].b := puts[k].data]
  }

  /** The same log_writes as steps of the n-th outstanding operation. */
  function Puts(n: nat, puts: seq<Store>): (r: seq<L.Step>)
    ensures |r| == |puts|
  {
    seq(|puts|, k requires 0 <= k < |puts| => L.Put(n, puts[k].b, Words(puts[k].data)))
  }

  /** The log_writes can be made, and turn disk d into e. */
  ghost predicate Makes(lay: W.Layout, s: L.Sys, n: nat, puts: seq<Store>, d: seq<Block>, e: seq<Block>) {
    && |d| == lay.total && InDisk(lay, puts) && Stored(lay, d, puts) == e
    && L.CanRun(lay, s, Puts(n, puts))
  }

  // ---- What the pieces of a call do, as module FsFile proves them to ----

  ghost predicate SpaceFor(g: Geometry, n: nat) { g.Ok() && n <= (g.bmapstart - g.inodestart) * IPB }

  /** Inode i as the disk holds it. */
  ghost function Dinode(g: Geometry, d: seq<Block>, i: nat): Inode
    requires |d| == g.size && SpaceFor(g, i + 1)
  {
    InodeBlockFits(g, i);
    DinodeIn(d[InodeBlock(g, i)], i)
  }

  /** Only inode i has changed on disk, to ip. */
  ghost predicate DiskInode(g: Geometry, d: seq<Block>, e: seq<Block>, n: nat, i: nat, ip: Inode) {
    && |d| == |e| == g.size && SpaceFor(g, n)
    && forall j :: 0 <= j < n ==> Dinode(g, e, j) == if j == i then ip else Dinode(g, d, j)
  }

  ghost predicate DiskInodesKept(g: Geometry, d: seq<Block>, e: seq<Block>, n: nat) {
    && |d| == |e| == g.size && SpaceFor(g, n)
    && forall j :: 0 <= j < n ==> Dinode(g, e, j) == Dinode(g, d, j)
  }

  /** The number of bytes that the next round of writei stores. */
  function Room(w: Writing): nat
    requires w.k <= |w.p|
  {
    Min(|w.p| - w.k, BSIZE - (w.off + w.k) % BSIZE)
  }

  /** The bytes of the file so far, given its contents before the call. */
  function SoFar(c: seq<Byte>, w: Writing): (r: seq<Byte>)
    requires w.off <= |c| && w.k <= |w.p|
    ensures |r| == Max(|c|, w.off + w.k)
  {
    Overwrite(c, w.off, w.p[..w.k])
  }

  ghost predicate PieceTo(g: Geometry, s: St, t: St, own: Owners, w: Writing, c: seq<Byte>) {
    && Shape(g, s) && Inv(g, t, own) && w.i < |s.inodes| == |t.inodes|
    && w.off <= |c| && w.k < |w.p|
    && OthersKept(g, s, t, w.i) && t.inodes[w.i].size == s.inodes[w.i].size
    && DiskInodesKept(g, s.disk, t.disk, |s.inodes|)
    && var v := w.(k := w.k + Room(w));
       && FileIs(g, t, w.i, Max(|c|, v.off + v.k), SoFar(c, v))
       && (v.off + v.k <= s.inodes[w.i].size ==> t.inodes == s.inodes)
  }

  ghost predicate CloseTo(g: Geometry, s: St, t: St, own: Owners, w: Writing, c: seq<Byte>) {
    && Shape(g, s) && Inv(g, t, own) && w.i < |s.inodes| == |t.inodes|
    && w.off <= |c| && w.k == |w.p|
    && OthersKept(g, s, t, w.i) && FileIs(g, t, w.i, Max(|c|, w.off + w.k), SoFar(c, w))
    && if |w.p| > 0 && w.off + |w.p| > s.inodes[w.i].size then
         && t.inodes[w.i].size == w.off + |w.p|
         && DiskInode(g, s.disk, t.disk, |s.inodes|, w.i, t.inodes[w.i])
       else t == s
  }

  ghost predicate TruncTo(g: Geometry, s: St, t: St, own: Owners, i: nat) {
    && Shape(g, s) && Inv(g, t, own) && i < |s.inodes| == |t.inodes|
    && OthersKept(g, s, t, i) && FileIs(g, t, i, 0, []) && t.inodes[i].size == 0
    && DiskInode(g, s.disk, t.disk, |s.inodes|, i, t.inodes[i])
  }

  // ---- Steps ----

  ghost predicate Locked(busy: map<nat, Writing>, i: nat) { exists o :: o in busy && busy[o].i == i }

  /** The n-th outstanding operation is between calls. */
  ghost predicate Idle(x: State, n: nat) {
    x.log.phase.Running? && n < |x.log.ops| && x.log.ops[n].id !in x.busy
  }

  /** The n-th outstanding operation is inside writei. */
  ghost predicate Inside(x: State, n: nat) {
    && x.log.phase.Running? && n < |x.log.ops| && x.log.ops[n].id in x.busy
    && var w := x.busy[x.log.ops[n].id]; w.i < |x.files| && w.off <= |x.files[w.i]| && w.k <= |w.p|
  }

  ghost predicate Enabled(lay: W.Layout, g: Geometry, x: State, a: Step) {
    match a
    case Log(a) =>
      L.Enabled(lay, x.log, a) && !a.Put? && !a.Crash? && (a.End? ==> x.log.ops[a.i].id !in x.busy)
    case Crash(torn) => AllPuts(torn) && L.CanRun(lay, x.log, torn)
    case Open(n, i, off, p) =>
      Idle(x, n) && i < |x.files| && !Locked(x.busy, i) && off <= |x.files[i]| && off + |p| <= MAXBYTES
    case Piece(n, t, own, puts) =>
      Inside(x, n) && var w := x.busy[x.log.ops[n].id];
      PieceTo(g, x.st, t, own, w, x.files[w.i]) && Makes(lay, x.log, n, puts, x.st.disk, t.disk)
    case Close(n, t, puts) =>
      Inside(x, n) && var w := x.busy[x.log.ops[n].id];
      CloseTo(g, x.st, t, x.own, w, x.files[w.i]) && Makes(lay, x.log, n, puts, x.st.disk, t.disk)
    case Trunc(n, i, t, own, puts) =>
      && Idle(x, n) && i < |x.files| && !Locked(x.busy, i)
      && TruncTo(g, x.st, t, own, i) && Makes(lay, x.log, n, puts, x.st.disk, t.disk)
  }

  ghost predicate AllPuts(run: seq<L.Step>) { forall k :: 0 <= k < |run| ==> run[k].Put? }

  /** The current group is kept. */
  ghost function Save(x: State): State {
    x.(base := x.st, bown := x.own, saved := x.files, kept := x.kept + {x.log.group})
  }

  ghost function Do(lay: W.Layout, g: Geometry, x: State, a: Step): State
    requires Enabled(lay, g, x, a)
  {
    match a
    case Log(a) =>
      var save := a.CommitDone? || (a.CommitWrite? && x.log.phase.k == |x.log.list|);
      (if save then Save(x) else x).(log := L.Do(lay, x.log, a))
    case Crash(torn) =>
      x.(log := L.Do(lay, L.After(lay, x.log, torn), L.Crash),
         st := x.base, own := x.bown, files := x.saved, busy := map[])
    case Open(n, i, off, p) =>
      x.(busy := x.busy[x.log.ops[n].id := Writing(i, off, p, 0)])
    case Piece(n, t, own, puts) =>
      var o := x.log.ops[n].id;
      var w := x.busy[o];
      x.(log := L.After(lay, x.log, Puts(n, puts)), st := t, own := own,
         busy := x.busy[o := w.(k := w.k + Room(w))])
    case Close(n, t, puts) =>
      var o := x.log.ops[n].id;
      var w := x.busy[o];
      x.(log := L.After(lay, x.log, Puts(n, puts)), st := t, busy := x.busy - {o},
         files := x.files[w.i := Overwrite(x.files[w.i], w.off, w.p)],
         done := x.done + [Done(o, x.log.group, Write(w.i, w.off, w.p))])
    case Trunc(n, i, t, own, puts) =>
      x.(log := L.After(lay, x.log, Puts(n, puts)), st := t, own := own, files := x.files[i := []],
         done := x.done + [Done(x.log.ops[n].id, x.log.group, Truncate(i))])
  }

  /** A boot with an empty log and the given files. */
  ghost function Boot(st: St, own: Owners, files: seq<seq<Byte>>): State {
    State(L.Boot(Image(st.disk)), st, own, files, map[], st, own, files, [], {})
  }

  ghost predicate CanRun(lay: W.Layout, g: Geometry, x: State, run: seq<Step>)
    decreases |run|
  {
    run == [] || (Enabled(lay, g, x, run[0]) && CanRun(lay, g, Do(lay, g, x, run[0]), run[1..]))
  }

  ghost function After(lay: W.Layout, g: Geometry, x: State, run: seq<Step>): State
    requires CanRun(lay, g, x, run)
    decreases |run|
  {
    if run == [] then x else After(lay, g, Do(lay, g, x, run[0]), run[1..])
  }

  // ---- The invariant ----

  ghost predicate Setting(lay: W.Layout, g: Geometry) {
    g.Ok() && 1 <= lay.size && lay.total == g.size && lay.start + lay.size <= g.inodestart
  }

  /** A file system at rest, in memory and on disk, with these files. */
  ghost predicate Whole(g: Geometry, st: St, own: Owners, files: seq<seq<Byte>>) {
    && Inv(g, st, own) && Encodes(g, st.disk, st.inodes) && |files| == |st.inodes|
    && forall i :: 0 <= i < |files| ==> st.inodes[i].size == |files[i]| && FileIs(g, st, i, |files[i]|, files[i])
  }

  /** A writei under way on a file with contents c before. */
  ghost predicate Halfway(g: Geometry, st: St, c: seq<Byte>, w: Writing)
    requires Shape(g, st) && w.i < |st.inodes| && SpaceFor(g, |st.inodes|)
  {
    && w.k <= |w.p| && w.off <= |c| && w.off + |w.p| <= MAXBYTES
    && FileIs(g, st, w.i, Max(|c|, w.off + w.k), SoFar(c, w))
    && (w.off + w.k <= |c| ==> Dinode(g, st.disk, w.i) == st.inodes[w.i])
  }

  /** A file with nothing under way. */
  ghost predicate AtRest(g: Geometry, st: St, c: seq<Byte>, i: nat)
    requires Shape(g, st) && i < |st.inodes| && SpaceFor(g, |st.inodes|)
  {
    FileIs(g, st, i, |c|, c) && Dinode(g, st.disk, i) == st.inodes[i]
  }

  /** A file system with writes under way on different files. */
  ghost predicate Partial(g: Geometry, st: St, own: Owners, files: seq<seq<Byte>>, busy: map<nat, Writing>) {
    && Inv(g, st, own) && SpaceFor(g, |st.inodes|) && |files| == |st.inodes|
    && (forall i :: 0 <= i < |files| ==> st.inodes[i].size == |files[i]|)
    && (forall i :: 0 <= i < |files| && !Locked(busy, i) ==> AtRest(g, st, files[i], i))
    && (forall o :: o in busy ==> busy[o].i < |files| && Halfway(g, st, files[busy[o].i], busy[o]))
    && (forall o, q :: o in busy && q in busy && o != q ==> busy[o].i != busy[q].i)
  }

  /** Calls belong to the group of their operation; committed groups are kept; and kept groups hold
      only operations that have ended. */
  ghost predicate History(log: L.Sys, done: seq<Done>, kept: set<nat>) {
    && (forall k :: 0 <= k < |done| ==> done[k].op in log.groupOf && log.groupOf[done[k].op] == done[k].group)
    && log.committed <= kept && (forall q :: q in kept ==> q <= log.group)
    && (log.group in kept ==> log.phase.Committing? && log.group in log.committed)
    && (forall o :: o in log.groupOf && log.groupOf[o] in kept ==> o in log.ended)
  }

  /** The recovered disk would hold the files as of the last commit. */
  ghost predicate Based(lay: W.Layout, g: Geometry, d0: seq<Block>, files0: seq<seq<Byte>>, x: State)
    requires lay.Fits(Image(d0)) && L.InHome(lay, x.log.issued)
  {
    && Whole(g, x.base, x.bown, x.saved) && x.saved == Files(files0, x.done, x.kept)
    && Mirrors(lay, x.base.disk, L.Effect(lay, Image(d0), x.log.issued, x.log.committed))
  }

  /** The processes see the files of the current group, too. */
  ghost predicate Current(lay: W.Layout, g: Geometry, d0: seq<Block>, files0: seq<seq<Byte>>, x: State)
    requires lay.Fits(Image(d0)) && L.InHome(lay, x.log.issued)
  {
    && Partial(g, x.st, x.own, x.files, x.busy)
    && x.files == Files(files0, x.done, x.kept + {x.log.group})
    && Mirrors(lay, x.st.disk, L.Effect(lay, Image(d0), x.log.issued, x.log.committed + {x.log.group}))
    && (forall o :: o in x.busy ==> L.IsOutstanding(x.log.ops, o))
  }

  ghost predicate Unchanged(x: State) {
    x.st == x.base && x.own == x.bown && x.files == x.saved && x.busy == map[]
  }

  ghost predicate Good(lay: W.Layout, g: Geometry, d0: seq<Block>, files0: seq<seq<Byte>>, x: State) {
    && Setting(lay, g) && lay.Fits(Image(d0)) && L.Inv(lay, Image(d0), x.log) && L.InHome(lay, x.log.issued)
    && History(x.log, x.done, x.kept) && Based(lay, g, d0, files0, x)
    && (if x.log.phase.Recovering? then Unchanged(x) else Current(lay, g, d0, files0, x))
    && (x.log.group in x.kept ==> Unchanged(x))
  }

  // ---- Replaying ----

  lemma {:induction false} ReplayIgnores(c: seq<Byte>, i: nat, done: seq<Done>, kept: set<nat>, q: nat)
    requires forall k :: 0 <= k < |done| ==> done[k].group != q
    ensures Replay(c, i, done, kept + {q}) == Replay(c, i, done, kept)
    decreases |done|
  {
    if done != [] { ReplayIgnores(c, i, done[..|done| - 1], kept, q); }
  }

  lemma {:induction false} FilesIgnore(files: seq<seq<Byte>>, done: seq<Done>, kept: set<nat>, q: nat)
    requires forall k :: 0 <= k < |done| ==> done[k].group != q
    ensures Files(files, done, kept + {q}) == Files(files, done, kept)
  {
    forall i | 0 <= i < |files| ensures Files(files, done, kept + {q})[i] == Files(files, done, kept)[i] {
      ReplayIgnores(files[i], i, done, kept, q);
    }
  }

  lemma {:induction false} FilesSnoc(files: seq<seq<Byte>>, done: seq<Done>, kept: set<nat>, a: Done)
    ensures Files(files, done + [a], kept) ==
            var r := Files(files, done, kept);
            if a.group in kept && a.call.i < |r| then r[a.call.i := Result(r[a.call.i], a.call)] else r
  {
    var r := Files(files, done, kept);
    assert (done + [a])[..|done|] == done;
  }

  // ---- At rest and under way ----

  lemma {:induction false} WholePartial(g: Geometry, st: St, own: Owners, files: seq<seq<Byte>>)
    requires Whole(g, st, own, files)
    ensures Partial(g, st, own, files, map[])
  {
    hide FileIs, DinodeIn, Owned, Mapped, Sized;
  }

  lemma {:induction false} PartialWhole(g: Geometry, st: St, own: Owners, files: seq<seq<Byte>>)
    requires Partial(g, st, own, files, map[])
    ensures Whole(g, st, own, files)
  {
    hide FileIs, DinodeIn, Owned, Mapped, Sized;
    forall i | 0 <= i < |files|
      ensures InodeBlock(g, i) < |st.disk| && DinodeIn(st.disk[InodeBlock(g, i)], i) == st.inodes[i]
    {
      InodeBlockFits(g, i);
      assert !Locked(map[], i);
      assert AtRest(g, st, files[i], i);
    }
  }

  // ---- log_writes ----

  /** log_writes change neither the groups nor what recovery would show. */
  lemma {:induction false} PutsQuiet(lay: W.Layout, init: W.Disk, s: L.Sys, run: seq<L.Step>)
    requires L.Inv(lay, init, s) && lay.Fits(init) && L.InHome(lay, s.issued) && L.CanRun(lay, s, run) && AllPuts(run)
    ensures var u := L.After(lay, s, run);
            && L.Inv(lay, init, u) && L.InHome(lay, u.issued) && u.phase == s.phase && u.group == s.group
            && u.committed == s.committed && u.groupOf == s.groupOf && u.ended == s.ended && |u.ops| == |s.ops|
            && (forall k :: 0 <= k < |s.ops| ==> u.ops[k].id == s.ops[k].id)
            && L.Effect(lay, init, u.issued, s.committed) == L.Effect(lay, init, s.issued, s.committed)
    decreases |run|
  {
    hide L.Inv, L.Effect;
    if run != [] {
      PutQuiet(lay, init, s, run[0]);
      PutsQuiet(lay, init, L.Do(lay, s, run[0]), run[1..]);
    }
  }

  lemma {:induction false} PutQuiet(lay: W.Layout, init: W.Disk, s: L.Sys, a: L.Step)
    requires L.Inv(lay, init, s) && lay.Fits(init) && L.InHome(lay, s.issued) && L.Enabled(lay, s, a) && a.Put?
    ensures var u := L.Do(lay, s, a);
            && L.Inv(lay, init, u) && L.InHome(lay, u.issued) && s.group !in s.committed
            && L.Effect(lay, init, u.issued, s.committed) == L.Effect(lay, init, s.issued, s.committed)
            && L.Effect(lay, init, u.issued, s.committed + {s.group}) ==
               L.Effect(lay, init, s.issued, s.committed + {s.group})[a.bno := a.data]
  {
    hide L.Effect, L.Durable, L.Logged;
    L.StepInv(lay, init, s, a);
    var u := L.Update(s.ops[a.i].id, s.group, a.bno, a.data);
    L.EffectSnoc(lay, init, s.issued, s.committed, u);
    L.EffectSnoc(lay, init, s.issued, s.committed + {s.group}, u);
  }

  /** The disk that the processes see follows the log_writes. */
  lemma {:induction false} PutsMirror(lay: W.Layout, init: W.Disk, s: L.Sys, n: nat, d: seq<Block>, puts: seq<Store>)
    requires L.Inv(lay, init, s) && lay.Fits(init) && L.InHome(lay, s.issued) && L.CanRun(lay, s, Puts(n, puts))
    requires |d| == lay.total && InDisk(lay, puts)
    requires Mirrors(lay, d, L.Effect(lay, init, s.issued, s.committed + {s.group}))
    ensures var u := L.After(lay, s, Puts(n, puts));
            && L.InHome(lay, u.issued)
            && Mirrors(lay, Stored(lay, d, puts), L.Effect(lay, init, u.issued, s.committed + {s.group}))
    decreases |puts|
  {
    hide L.Inv, L.Effect, Words;
    if puts != [] {
      var a := Puts(n, puts)[0];
      var d1 := d[puts[0].b := puts[0].data];
      PutQuiet(lay, init, s, a);
      assert Puts(n, puts)[1..] == Puts(n, puts[1..]);
      StoredFirst(lay, d, puts);
      PutsMirror(lay, init, L.Do(lay, s, a), n, d1, puts[1..]);
    }
  }

  lemma {:induction false} StoredFirst(lay: W.Layout, d: seq<Block>, puts: seq<Store>)
    requires |d| == lay.total && InDisk(lay, puts) && puts != []
    ensures InDisk(lay, puts[1..])
    ensures Stored(lay, d, puts) == Stored(lay, d[puts[0].b := puts[0].data], puts[1..])
    decreases |puts|
  {
    var k := |puts| - 1;
    if k > 0 {
      StoredFirst(lay, d, puts[..k]);
      assert puts[..k][1..] == puts[1..][..k - 1];
      assert puts[1..][k - 1] == puts[k];
    }
  }

  // ---- Calls under way ----

  lemma {:induction false} UnlockedMore(busy: map<nat, Writing>, o: nat, w: Writing, j: nat)
    ensures Locked(busy[o := w], j) <==> j == w.i || Locked(busy - {o}, j)
    ensures !Locked(busy, j) ==> !Locked(busy - {o}, j)
    ensures o in busy && busy[o].i != j && Locked(busy, j) ==> Locked(busy - {o}, j)
  {
    var more, less := busy[o := w], busy - {o};
    assert o in more && more[o] == w;
    if Locked(less, j) {
      var q :| q in less && less[q].i == j;
      assert q in more && more[q].i == j && q in busy && busy[q].i == j;
    }
    if Locked(more, j) && j != w.i {
      var q :| q in more && more[q].i == j;
      assert q in less && less[q].i == j;
    }
    if o in busy && busy[o].i != j && Locked(busy, j) {
      var q :| q in busy && busy[q].i == j;
      assert q in less && less[q].i == j;
    }
  }

  lemma {:induction false} OpenPartial(g: Geometry, st: St, own: Owners, files: seq<seq<Byte>>,
                                       busy: map<nat, Writing>, o: nat, w: Writing)
    requires Partial(g, st, own, files, busy) && o !in busy && w.i < |files| && !Locked(busy, w.i)
    requires w.k == 0 && w.off <= |files[w.i]| && w.off + |w.p| <= MAXBYTES
    ensures Partial(g, st, own, files, busy[o := w])
  {
    hide FileIs, Inv, Dinode, Overwrite;
    InvShape(g, st, own);
    OverwriteNone(files[w.i], w.off, w.p);
    forall j | 0 <= j < |files| && !Locked(busy[o := w], j) ensures AtRest(g, st, files[j], j) {
      assert busy - {o} == busy;
      UnlockedMore(busy, o, w, j);
    }
    forall q | q in busy ensures busy[q].i != w.i { assert !Locked(busy, w.i); }
  }

  lemma {:induction false} InvShape(g: Geometry, s: St, own: Owners)
    requires Inv(g, s, own)
    ensures Shape(g, s)
  {
  }

  /** Files other than i are left alone. */
  lemma {:induction false} OthersRemain(g: Geometry, st: St, own: Owners, files: seq<seq<Byte>>,
                                        busy: map<nat, Writing>, t: St, i: nat)
    requires Partial(g, st, own, files, busy) && Shape(g, st) && Shape(g, t) && OthersKept(g, st, t, i)
    requires |st.disk| == |t.disk| == g.size
    requires forall j :: 0 <= j < |files| && j != i ==> Dinode(g, t.disk, j) == Dinode(g, st.disk, j)
    ensures |t.inodes| == |st.inodes| && forall j :: 0 <= j < |files| && j != i ==> t.inodes[j] == st.inodes[j]
    ensures forall j :: 0 <= j < |files| && j != i && !Locked(busy, j) ==> AtRest(g, t, files[j], j)
    ensures forall o :: o in busy && busy[o].i != i ==> Halfway(g, t, files[busy[o].i], busy[o])
  {
    hide FileIs, Inv, Shape, Dinode, SoFar, Locked;
    forall o | o in busy && busy[o].i != i ensures Halfway(g, t, files[busy[o].i], busy[o]) {
      assert Halfway(g, st, files[busy[o].i], busy[o]);
    }
  }

  lemma {:induction false} PiecePartial(g: Geometry, st: St, own: Owners, files: seq<seq<Byte>>,
                                        busy: map<nat, Writing>, o: nat, t: St, own2: Owners)
    requires Partial(g, st, own, files, busy) && o in busy && busy[o].i < |files|
    requires PieceTo(g, st, t, own2, busy[o], files[busy[o].i])
    ensures var w := busy[o]; Partial(g, t, own2, files, busy[o := w.(k := w.k + Room(w))])
  {
    hide FileIs, Inv, Dinode, OthersKept, SoFar, Halfway, AtRest, PieceTo, Room, Locked;
    var w := busy[o];
    PieceFile(g, st, own, t, own2, files[w.i], w);
    var v := w.(k := w.k + Room(w));
    OthersRemain(g, st, own, files, busy, t, w.i);
    forall j | 0 <= j < |files| && !Locked(busy[o := v], j) ensures j != w.i && !Locked(busy, j) {
      UnlockedMore(busy, o, v, j);
    }
  }

  lemma {:induction false} PieceFile(g: Geometry, st: St, own: Owners, t: St, own2: Owners, c: seq<Byte>, w: Writing)
    requires Inv(g, st, own) && SpaceFor(g, |st.inodes|) && w.i < |st.inodes| && st.inodes[w.i].size == |c|
    requires Halfway(g, st, c, w) && PieceTo(g, st, t, own2, w, c)
    ensures Inv(g, t, own2) && Shape(g, st) && Shape(g, t) && OthersKept(g, st, t, w.i)
    ensures |t.inodes| == |st.inodes| && t.inodes[w.i].size == |c|
    ensures w.k <= |w.p| && Halfway(g, t, c, w.(k := w.k + Room(w)))
    ensures |t.disk| == |st.disk| == g.size
    ensures forall j :: 0 <= j < |st.inodes| ==> Dinode(g, t.disk, j) == Dinode(g, st.disk, j)
  {
    hide FileIs, Inv, Dinode, OthersKept, SoFar;
    InvShape(g, st, own);
    InvShape(g, t, own2);
    RoomFits(w);
  }

  lemma {:induction false} RoomFits(w: Writing)
    requires w.k < |w.p|
    ensures 0 < Room(w) && w.k + Room(w) <= |w.p| && (w.off + w.k) % BSIZE + Room(w) <= BSIZE
  {
  }

  lemma {:induction false} ClosePartial(g: Geometry, st: St, own: Owners, files: seq<seq<Byte>>,
                                        busy: map<nat, Writing>, o: nat, t: St)
    requires Partial(g, st, own, files, busy) && o in busy && busy[o].i < |files|
    requires CloseTo(g, st, t, own, busy[o], files[busy[o].i])
    ensures var w := busy[o];
            Partial(g, t, own, files[w.i := Overwrite(files[w.i], w.off, w.p)], busy - {o})
  {
    hide FileIs, Inv, Dinode, OthersKept, Overwrite, Halfway, AtRest, CloseTo, Locked;
    var w := busy[o];
    ClosedFile(g, st, own, t, files[w.i], w);
    OthersRemain(g, st, own, files, busy, t, w.i);
    forall j | 0 <= j < |files| && j != w.i && !Locked(busy - {o}, j) ensures !Locked(busy, j) {
      UnlockedMore(busy, o, w, j);
    }
  }

  lemma {:induction false} ClosedFile(g: Geometry, st: St, own: Owners, t: St, c: seq<Byte>, w: Writing)
    requires Inv(g, st, own) && SpaceFor(g, |st.inodes|) && w.i < |st.inodes| && st.inodes[w.i].size == |c|
    requires Halfway(g, st, c, w) && CloseTo(g, st, t, own, w, c)
    ensures Inv(g, t, own) && Shape(g, st) && Shape(g, t) && OthersKept(g, st, t, w.i) && |t.inodes| == |st.inodes|
    ensures t.inodes[w.i].size == |Overwrite(c, w.off, w.p)| && AtRest(g, t, Overwrite(c, w.off, w.p), w.i)
    ensures |t.disk| == |st.disk| == g.size
    ensures forall j :: 0 <= j < |st.inodes| && j != w.i ==> Dinode(g, t.disk, j) == Dinode(g, st.disk, j)
  {
    hide FileIs, Inv, Dinode, OthersKept;
    InvShape(g, st, own);
    InvShape(g, t, own);
    assert w.p[..|w.p|] == w.p;
  }

  lemma {:induction false} TruncPartial(g: Geometry, st: St, own: Owners, files: seq<seq<Byte>>,
                                        busy: map<nat, Writing>, i: nat, t: St, own2: Owners)
    requires Partial(g, st, own, files, busy) && i < |files| && !Locked(busy, i) && TruncTo(g, st, t, own2, i)
    ensures Partial(g, t, own2, files[i := []], busy)
  {
    hide FileIs, Inv, Dinode, OthersKept, SoFar, Halfway;
    InvShape(g, st, own);
    InvShape(g, t, own2);
    OthersRemain(g, st, own, files, busy, t, i);
    forall o | o in busy ensures busy[o].i != i { assert !Locked(busy, i); }
  }

  // ---- Every step keeps the invariant ----

  /** What the log's own invariant says about groups. */
  lemma {:induction false} LogFacts(lay: W.Layout, init: W.Disk, s: L.Sys)
    requires L.Inv(lay, init, s)
    ensures L.InHome(lay, s.issued)
    ensures forall k :: 0 <= k < |s.issued| ==> s.issued[k].group <= s.group
    ensures forall o :: o in s.groupOf ==> s.groupOf[o] <= s.group && (s.phase.Recovering? ==> s.groupOf[o] < s.group)
    ensures s.phase.Recovering? ==> forall k :: 0 <= k < |s.issued| ==> s.issued[k].group < s.group
    ensures !s.phase.Committing? ==> s.group !in s.committed
    ensures !s.phase.Running? ==> s.ops == []
    ensures s.phase.Committing? ==> forall o :: o in s.groupOf && s.groupOf[o] == s.group ==> o in s.ended
    ensures forall n :: 0 <= n < |s.ops| ==> s.ops[n].id in s.groupOf && s.groupOf[s.ops[n].id] == s.group
  {
    hide L.Durable;
    assert !L.IsOutstanding([], 0);
  }

  /** begin_op, end_op of an operation between calls, and disk writes that are not a header. */
  lemma {:induction false} LogStep(lay: W.Layout, g: Geometry, d0: seq<Block>, files0: seq<seq<Byte>>, x: State,
                                   a: L.Step)
    requires Good(lay, g, d0, files0, x) && Enabled(lay, g, x, Log(a))
    requires a.Begin? || a.End? || a.RecoverWrite? || (a.CommitWrite? && x.log.phase.k != |x.log.list|)
    ensures Good(lay, g, d0, files0, Do(lay, g, x, Log(a)))
  {
    hide L.Inv, L.Effect, Partial, Whole, Mirrors, Files, W.Layout.Fits, W.Layout.Loggable, L.Writes;
    L.StepInv(lay, Image(d0), x.log, a);
    LogFacts(lay, Image(d0), x.log);
    var u := L.Do(lay, x.log, a);
    forall o | o in x.busy && !u.phase.Recovering? ensures L.IsOutstanding(u.ops, o) {
      StillOutstanding(lay, x.log, a, o);
    }
  }

  lemma {:induction false} StillOutstanding(lay: W.Layout, s: L.Sys, a: L.Step, o: nat)
    requires L.Enabled(lay, s, a) && L.IsOutstanding(s.ops, o) && (a.End? ==> s.ops[a.i].id != o)
    requires a.Begin? || a.End? || a.RecoverWrite? || a.CommitWrite?
    ensures L.IsOutstanding(L.Do(lay, s, a).ops, o)
  {
    hide L.Writes, L.CommitReady, L.RecoverReady;
    var u := L.Do(lay, s, a);
    var k :| 0 <= k < |s.ops| && s.ops[k].id == o;
    if a.End? && k > a.i { assert u.ops[k - 1] == s.ops[k]; } else { assert u.ops[k] == s.ops[k]; }
  }

  /** Nothing is under way while a group commits. */
  lemma {:induction false} NobodyBusy(x: State)
    requires x.log.ops == [] && forall o :: o in x.busy ==> L.IsOutstanding(x.log.ops, o)
    ensures x.busy == map[]
  {
    forall o ensures o !in x.busy { assert !L.IsOutstanding([], o); }
  }

  /** The header write. */
  lemma {:induction false} HeaderStep(lay: W.Layout, g: Geometry, d0: seq<Block>, files0: seq<seq<Byte>>, x: State)
    requires Good(lay, g, d0, files0, x) && Enabled(lay, g, x, Log(L.CommitWrite)) && x.log.phase.k == |x.log.list|
    ensures Good(lay, g, d0, files0, Do(lay, g, x, Log(L.CommitWrite)))
  {
    hide L.Inv, L.Effect, Partial, Whole, Mirrors, Files, W.Layout.Fits, W.Layout.Loggable, L.Writes;
    L.StepInv(lay, Image(d0), x.log, L.CommitWrite);
    LogFacts(lay, Image(d0), x.log);
    NobodyBusy(x);
    PartialWhole(g, x.st, x.own, x.files);
    var q := x.log.group;
    assert x.kept + {q} + {q} == x.kept + {q} && x.log.committed + {q} + {q} == x.log.committed + {q};
  }

  /** The end of a commit. */
  lemma {:induction false} DoneStep(lay: W.Layout, g: Geometry, d0: seq<Block>, files0: seq<seq<Byte>>, x: State)
    requires Good(lay, g, d0, files0, x) && Enabled(lay, g, x, Log(L.CommitDone))
    ensures Good(lay, g, d0, files0, Do(lay, g, x, Log(L.CommitDone)))
  {
    hide L.Inv, L.Effect, Partial, Whole, Mirrors, Files, W.Layout.Fits, W.Layout.Loggable, L.Writes;
    L.StepInv(lay, Image(d0), x.log, L.CommitDone);
    LogFacts(lay, Image(d0), x.log);
    NobodyBusy(x);
    PartialWhole(g, x.st, x.own, x.files);
    var q, us, v := x.log.group, x.log.issued, x.log.committed;
    CommitOver(lay, Image(d0), x.log);
    L.EffectIgnores(lay, Image(d0), us, v, q + 1);
    FilesIgnore(files0, x.done, x.kept + {q}, q + 1);
  }

  /** A group whose commit is over is committed, or had nothing to commit. */
  lemma {:induction false} CommitOver(lay: W.Layout, init: W.Disk, s: L.Sys)
    requires L.Inv(lay, init, s) && lay.Fits(init) && L.InHome(lay, s.issued) && L.Enabled(lay, s, L.CommitDone)
    ensures L.Effect(lay, init, s.issued, s.committed + {s.group}) == L.Effect(lay, init, s.issued, s.committed)
  {
    hide L.Effect, L.Grouped, L.Shows;
    if s.group in s.committed {
      assert s.committed + {s.group} == s.committed;
    } else {
      assert s.list == [];
      L.EffectIgnores(lay, init, s.issued, s.committed, s.group);
    }
  }

  /** The end of a recovery. */
  lemma {:induction false} RecoveredStep(lay: W.Layout, g: Geometry, d0: seq<Block>, files0: seq<seq<Byte>>, x: State)
    requires Good(lay, g, d0, files0, x) && Enabled(lay, g, x, Log(L.RecoverDone))
    ensures Good(lay, g, d0, files0, Do(lay, g, x, Log(L.RecoverDone)))
  {
    hide L.Inv, L.Effect, Partial, Whole, Mirrors, Files, W.Layout.Fits, W.Layout.Loggable, L.Writes;
    L.StepInv(lay, Image(d0), x.log, L.RecoverDone);
    LogFacts(lay, Image(d0), x.log);
    WholePartial(g, x.base, x.bown, x.saved);
    L.EffectIgnores(lay, Image(d0), x.log.issued, x.log.committed, x.log.group);
    FilesIgnore(files0, x.done, x.kept, x.log.group);
  }

  lemma {:induction false} CrashStep(lay: W.Layout, g: Geometry, d0: seq<Block>, files0: seq<seq<Byte>>, x: State,
                                     torn: seq<L.Step>)
    requires Good(lay, g, d0, files0, x) && Enabled(lay, g, x, Crash(torn))
    ensures Good(lay, g, d0, files0, Do(lay, g, x, Crash(torn)))
  {
    hide L.Inv, L.Effect, Partial, Whole, Mirrors, Files, W.Layout.Fits, L.CanRun, L.After;
    PutsQuiet(lay, Image(d0), x.log, torn);
    var u := L.After(lay, x.log, torn);
    L.StepInv(lay, Image(d0), u, L.Crash);
    LogFacts(lay, Image(d0), u);
  }

  lemma {:induction false} OpenStep(lay: W.Layout, g: Geometry, d0: seq<Block>, files0: seq<seq<Byte>>, x: State,
                                    a: Step)
    requires Good(lay, g, d0, files0, x) && Enabled(lay, g, x, a) && a.Open?
    ensures Good(lay, g, d0, files0, Do(lay, g, x, a))
  {
    hide L.Inv, L.Effect, Partial, Whole, Mirrors, Files, W.Layout.Fits;
    var o := x.log.ops[a.n].id;
    PartialFiles(g, x.st, x.own, x.files, x.busy);
    OpenPartial(g, x.st, x.own, x.files, x.busy, o, Writing(a.i, a.off, a.p, 0));
    assert L.IsOutstanding(x.log.ops, o);
  }

  lemma {:induction false} PartialFiles(g: Geometry, st: St, own: Owners, files: seq<seq<Byte>>,
                                        busy: map<nat, Writing>)
    requires Partial(g, st, own, files, busy)
    ensures |files| == |st.inodes| && |st.disk| == g.size
  {
    hide Owned, Mapped, Sized, AtRest, Halfway;
  }

  /** The log's side of a piece of a call. */
  lemma {:induction false} CallLog(lay: W.Layout, g: Geometry, d0: seq<Block>, files0: seq<seq<Byte>>, x: State, n: nat,
                                   puts: seq<Store>, e: seq<Block>)
    requires Good(lay, g, d0, files0, x) && x.log.phase.Running? && n < |x.log.ops|
    requires Makes(lay, x.log, n, puts, x.st.disk, e)
    ensures var u := L.After(lay, x.log, Puts(n, puts));
            && L.Inv(lay, Image(d0), u) && L.InHome(lay, u.issued) && u.phase.Running? && u.group == x.log.group
            && u.committed == x.log.committed && u.groupOf == x.log.groupOf && u.ended == x.log.ended
            && (forall o :: L.IsOutstanding(x.log.ops, o) ==> L.IsOutstanding(u.ops, o))
            && L.Effect(lay, Image(d0), u.issued, u.committed) == L.Effect(lay, Image(d0), x.log.issued, u.committed)
            && Mirrors(lay, e, L.Effect(lay, Image(d0), u.issued, u.committed + {u.group}))
    ensures x.log.group !in x.kept && L.IsOutstanding(x.log.ops, x.log.ops[n].id)
    ensures x.log.ops[n].id in x.log.groupOf && x.log.groupOf[x.log.ops[n].id] == x.log.group
  {
    hide L.Inv, L.Effect, Partial, Whole, Mirrors, Files, W.Layout.Fits, L.CanRun, L.After, Stored;
    PutsQuiet(lay, Image(d0), x.log, Puts(n, puts));
    PutsMirror(lay, Image(d0), x.log, n, x.st.disk, puts);
    LogFacts(lay, Image(d0), x.log);
    var u := L.After(lay, x.log, Puts(n, puts));
    forall o | L.IsOutstanding(x.log.ops, o) ensures L.IsOutstanding(u.ops, o) {
      var k :| 0 <= k < |x.log.ops| && x.log.ops[k].id == o;
      assert u.ops[k].id == o;
    }
  }

  lemma {:induction false} PieceStep(lay: W.Layout, g: Geometry, d0: seq<Block>, files0: seq<seq<Byte>>, x: State,
                                     a: Step)
    requires Good(lay, g, d0, files0, x) && Enabled(lay, g, x, a) && a.Piece?
    ensures Good(lay, g, d0, files0, Do(lay, g, x, a))
  {
    hide L.Inv, L.Effect, Partial, Whole, Mirrors, Files, W.Layout.Fits, L.CanRun, L.After, PieceTo, Makes, Room;
    CallLog(lay, g, d0, files0, x, a.n, a.puts, a.t.disk);
    PiecePartial(g, x.st, x.own, x.files, x.busy, x.log.ops[a.n].id, a.t, a.own);
  }

  /** A call of the current group changes the files that the processes see, not the saved ones. */
  lemma {:induction false} CallDone(x: State, files0: seq<seq<Byte>>, a: Done)
    requires x.log.group !in x.kept && a.group == x.log.group
    ensures Files(files0, x.done + [a], x.kept) == Files(files0, x.done, x.kept)
    ensures var r := Files(files0, x.done, x.kept + {x.log.group});
            a.call.i < |r| ==>
              Files(files0, x.done + [a], x.kept + {x.log.group}) == r[a.call.i := Result(r[a.call.i], a.call)]
  {
    hide Files;
    FilesSnoc(files0, x.done, x.kept, a);
    FilesSnoc(files0, x.done, x.kept + {x.log.group}, a);
  }

  lemma {:induction false} CloseStep(lay: W.Layout, g: Geometry, d0: seq<Block>, files0: seq<seq<Byte>>, x: State,
                                     a: Step)
    requires Good(lay, g, d0, files0, x) && Enabled(lay, g, x, a) && a.Close?
    ensures Good(lay, g, d0, files0, Do(lay, g, x, a))
  {
    hide L.Inv, L.Effect, Partial, Whole, Mirrors, Files, W.Layout.Fits, L.CanRun, L.After, CloseTo, Makes, Overwrite;
    var o := x.log.ops[a.n].id;
    var w := x.busy[o];
    CallLog(lay, g, d0, files0, x, a.n, a.puts, a.t.disk);
    ClosePartial(g, x.st, x.own, x.files, x.busy, o, a.t);
    CallDone(x, files0, Done(o, x.log.group, Write(w.i, w.off, w.p)));
  }

  lemma {:induction false} TruncStep(lay: W.Layout, g: Geometry, d0: seq<Block>, files0: seq<seq<Byte>>, x: State,
                                     a: Step)
    requires Good(lay, g, d0, files0, x) && Enabled(lay, g, x, a) && a.Trunc?
    ensures Good(lay, g, d0, files0, Do(lay, g, x, a))
  {
    hide L.Inv, L.Effect, Partial, Whole, Mirrors, Files, W.Layout.Fits, L.CanRun, L.After, TruncTo, Makes;
    CallLog(lay, g, d0, files0, x, a.n, a.puts, a.t.disk);
    TruncPartial(g, x.st, x.own, x.files, x.busy, a.i, a.t, a.own);
    CallDone(x, files0, Done(x.log.ops[a.n].id, x.log.group, Truncate(a.i)));
  }

  lemma {:induction false} StepGood(lay: W.Layout, g: Geometry, d0: seq<Block>, files0: seq<seq<Byte>>, x: State,
                                    a: Step)
    requires Good(lay, g, d0, files0, x) && Enabled(lay, g, x, a)
    ensures Good(lay, g, d0, files0, Do(lay, g, x, a))
  {
    hide Good, Do;
    match a
    case Log(b) =>
      if b.CommitDone? { DoneStep(lay, g, d0, files0, x); }
      else if b.RecoverDone? { RecoveredStep(lay, g, d0, files0, x); }
      else if b.CommitWrite? && x.log.phase.k == |x.log.list| { HeaderStep(lay, g, d0, files0, x); }
      else { LogStep(lay, g, d0, files0, x, b); }
    case Crash(torn) => CrashStep(lay, g, d0, files0, x, torn);
    case Open(_, _, _, _) => OpenStep(lay, g, d0, files0, x, a);
    case Piece(_, _, _, _) => PieceStep(lay, g, d0, files0, x, a);
    case Close(_, _, _) => CloseStep(lay, g, d0, files0, x, a);
    case Trunc(_, _, _, _, _) => TruncStep(lay, g, d0, files0, x, a);
  }

  lemma {:induction false} RunGood(lay: W.Layout, g: Geometry, d0: seq<Block>, files0: seq<seq<Byte>>, x: State,
                                   run: seq<Step>)
    requires Good(lay, g, d0, files0, x) && CanRun(lay, g, x, run)
    ensures Good(lay, g, d0, files0, After(lay, g, x, run))
    decreases |run|
  {
    hide Good, Enabled, Do;
    if run != [] {
      StepGood(lay, g, d0, files0, x, run[0]);
      RunGood(lay, g, d0, files0, Do(lay, g, x, run[0]), run[1..]);
    }
  }

  lemma {:induction false} BootGood(lay: W.Layout, g: Geometry, st: St, own: Owners, files: seq<seq<Byte>>)
    requires Setting(lay, g) && Whole(g, st, own, files) && W.HeadList(Image(st.disk)[lay.start]) == []
    ensures Good(lay, g, st.disk, files, Boot(st, own, files))
  {
    hide Whole, Partial, L.Inv, W.HeadList, Words;
    WholePartial(g, st, own, files);
    PartialFiles(g, st, own, files, map[]);
    L.BootInv(lay, Image(st.disk));
    assert Files(files, [], {}) == files && Files(files, [], {0}) == files;
    assert {} + {0} == {0};
  }

  /** A freshly made disk is one to boot from. */
  lemma {:induction false} FreshWhole(lay: W.Layout, g: Geometry, n: nat)
    requires Setting(lay, g) && SpaceFor(g, n)
    ensures var d := R.FreshDisk(g, g.datastart);
            && Whole(g, St(d, seq(n, _ => R.EMPTY_INODE)), map[], seq(n, _ => []))
            && W.HeadList(Image(d)[lay.start]) == []
  {
    hide Inv, Encodes, R.FreshDisk, WordAt;
    var d := R.FreshDisk(g, g.datastart);
    R.FreshInv(g, n);
    InvShape(g, St(d, seq(n, _ => R.EMPTY_INODE)), map[]);
    R.FreshLow(g, g.datastart, lay.start);
    WordZero(0);
    assert Image(d)[lay.start][0] == WordAt(d[lay.start], 0);
  }

  /** Whole calls only.  After any run, with crashes anywhere, the disk recovers to a file system
      that satisfies the invariant, in memory and on disk, and in which every file holds exactly the
      whole calls of the kept groups, in order.  Every committed group is kept; a kept call was made
      by an operation that reached end_op, all calls of which are kept. */
  lemma {:induction false} WholeCalls(lay: W.Layout, g: Geometry, st: St, own: Owners, files: seq<seq<Byte>>,
                                      run: seq<Step>)
    requires Setting(lay, g) && Whole(g, st, own, files) && W.HeadList(Image(st.disk)[lay.start]) == []
    requires CanRun(lay, g, Boot(st, own, files), run)
    ensures var x := After(lay, g, Boot(st, own, files), run);
            && Whole(g, x.base, x.bown, Files(files, x.done, x.kept))
            && W.Recoverable(lay, x.log.disk) && |x.base.disk| == lay.total
            && (forall b :: lay.Home(b) ==> C.Recovered(lay, x.log.disk, b) == Words(x.base.disk[b]))
            && x.log.committed <= x.kept
            && (forall k :: 0 <= k < |x.done| && x.done[k].group in x.kept ==> x.done[k].op in x.log.ended)
            && (forall j, k :: 0 <= j < |x.done| && 0 <= k < |x.done| && x.done[j].op == x.done[k].op ==>
                  x.done[j].group == x.done[k].group)
  {
    hide CanRun, After, Whole, Current, L.Durable, L.Grouped, L.Logged, L.Effect, C.Recovered, W.Recoverable, Files,
          W.HeadList;
    BootGood(lay, g, st, own, files);
    RunGood(lay, g, st.disk, files, Boot(st, own, files), run);
    L.InvShows(lay, Image(st.disk), After(lay, g, Boot(st, own, files), run).log);
  }

  lemma {:induction false} KeptGrows(lay: W.Layout, g: Geometry, x: State, run: seq<Step>)
    requires CanRun(lay, g, x, run)
    ensures x.kept <= After(lay, g, x, run).kept && x.done <= After(lay, g, x, run).done
    decreases |run|
  {
    hide Enabled;
    if run != [] { KeptGrows(lay, g, Do(lay, g, x, run[0]), run[1..]); }
  }

  /** Durability.  Once the commit of a group is over, its calls are kept, whatever follows. */
  lemma {:induction false} CallsLast(lay: W.Layout, g: Geometry, x: State, later: seq<Step>)
    requires Enabled(lay, g, x, Log(L.CommitDone)) && CanRun(lay, g, Do(lay, g, x, Log(L.CommitDone)), later)
    ensures var u := After(lay, g, Do(lay, g, x, Log(L.CommitDone)), later); x.log.group in u.kept && x.done <= u.done
  {
    hide CanRun, After, Enabled;
    KeptGrows(lay, g, Do(lay, g, x, Log(L.CommitDone)), later);
  }

  // ---- The code makes these steps ----

  /** What has changed on disk can be brought about by log_writes of logged blocks. */
  lemma {:induction false} Burst(lay: W.Layout, d: seq<Block>, e: seq<Block>, s: set<nat>) returns (puts: seq<Store>)
    requires |d| == |e| == lay.total && forall b :: b in s ==> lay.Home(b)
    requires forall b :: 0 <= b < |d| && b !in s ==> e[b] == d[b]
    ensures InDisk(lay, puts) && Stored(lay, d, puts) == e && |puts| == |s|
    ensures forall k :: 0 <= k < |puts| ==> puts[k].b in s
    decreases |s|
  {
    if s == {} {
      puts := [];
    } else {
      var b :| b in s;
      var more := Burst(lay, d[b := e[b]], e, s - {b});
      puts := [Store(b, e[b])] + more;
      StoredFirst(lay, d, puts);
      assert puts[1..] == more;
    }
  }

  lemma {:induction false} LoggedHome(lay: W.Layout, g: Geometry, d: seq<Block>, dinodes: seq<Inode>, n: nat,
                                      logged: set<nat>)
    requires Setting(lay, g) && OnDisk(g, d, dinodes, n, logged)
    ensures |d| == lay.total && SpaceFor(g, n) && |dinodes| == n
    ensures forall b :: b in logged ==> lay.Home(b)
    ensures forall j :: 0 <= j < n ==> Dinode(g, d, j) == dinodes[j]
  {
    hide DinodeIn;
  }

  /** One round of writei's loop. */
  method PieceOf(fs: FileSystem, w: Writing, ghost lay: W.Layout, ghost c: seq<Byte>)
    returns (ok: bool, ghost puts: seq<Store>)
    requires Setting(lay, fs.g) && fs.Valid() && w.i < |fs.inodes| && fs.inodes[w.i].size == |c| && w.k < |w.p|
    requires SpaceFor(fs.g, |fs.inodes|) && Halfway(fs.g, fs.S(), c, w)
    modifies fs
    ensures fs.Valid() && (!ok ==> Full(fs.g, fs.disk))
    ensures ok ==> PieceTo(fs.g, old(fs.S()), fs.S(), fs.own, w, c)
    ensures ok ==> InDisk(lay, puts) && |old(fs.disk)| == lay.total && Stored(lay, old(fs.disk), puts) == fs.disk
  {
    hide Inv, FileIs, Overwrite, OnDisk, Wrote, OthersKept, Dinode, Room;
    RoomFits(w);
    var p := w.p[w.k..w.k + Room(w)];
    NextPiece(c, w);
    LoggedHome(lay, fs.g, fs.disk, fs.dinodes, |fs.inodes|, fs.logged);
    InvShape(fs.g, fs.S(), fs.own);
    var addr;
    ghost var maps;
    ok, addr, maps := fs.WritePiece(w.i, w.off + w.k, p, Max(|c|, w.off + w.k), SoFar(c, w));
    puts := [];
    if ok {
      LoggedHome(lay, fs.g, fs.disk, fs.dinodes, |fs.inodes|, fs.logged);
      WroteFramed(fs.g, old(fs.disk), old(fs.logged), fs.disk, fs.logged);
      puts := Burst(lay, old(fs.disk), fs.disk, fs.logged);
    }
  }

  lemma {:induction false} WroteFramed(g: Geometry, d: seq<Block>, log: set<nat>, e: seq<Block>, log2: set<nat>)
    requires Wrote(g, d, log, e, log2)
    ensures Framed(d, log, e, log2)
  {
  }

  lemma {:induction false} NextPiece(c: seq<Byte>, w: Writing)
    requires w.off <= |c| && w.k < |w.p|
    ensures var v := w.(k := w.k + Room(w));
            && v.k <= |w.p|
            && Overwrite(SoFar(c, w), w.off + w.k, w.p[w.k..v.k]) == SoFar(c, v)
            && (v.off + v.k <= |c| ==> BlockBelow(w.off + w.k, Max(|c|, w.off + w.k)))
  {
    hide Overwrite;
    RoomFits(w);
    OverwriteNext(c, w.off, w.p, w.k, Room(w));
  }

  /** The end of writei. */
  method CloseOf(fs: FileSystem, w: Writing, ghost lay: W.Layout, ghost c: seq<Byte>) returns (ghost puts: seq<Store>)
    requires Setting(lay, fs.g) && fs.Valid() && w.i < |fs.inodes| && fs.inodes[w.i].size == |c| && w.k == |w.p|
    requires SpaceFor(fs.g, |fs.inodes|) && Halfway(fs.g, fs.S(), c, w)
    modifies fs
    ensures fs.Valid() && CloseTo(fs.g, old(fs.S()), fs.S(), fs.own, w, c) && fs.own == old(fs.own)
    ensures InDisk(lay, puts) && |old(fs.disk)| == lay.total && Stored(lay, old(fs.disk), puts) == fs.disk
  {
    hide Inv, FileIs, Overwrite, OnDisk, OthersKept, Dinode;
    LoggedHome(lay, fs.g, fs.disk, fs.dinodes, |fs.inodes|, fs.logged);
    InvShape(fs.g, fs.S(), fs.own);
    fs.FinishWritei(w.i, |w.p|, w.off + |w.p|, Max(|c|, w.off + w.k), SoFar(c, w));
    LoggedHome(lay, fs.g, fs.disk, fs.dinodes, |fs.inodes|, fs.logged);
    puts := Burst(lay, old(fs.disk), fs.disk, fs.logged);
  }

  method TruncOf(fs: FileSystem, i: nat, ghost lay: W.Layout) returns (ghost puts: seq<Store>)
    requires Setting(lay, fs.g) && fs.Valid() && i < |fs.inodes|
    modifies fs
    ensures fs.Valid() && TruncTo(fs.g, old(fs.S()), fs.S(), fs.own, i)
    ensures InDisk(lay, puts) && |old(fs.disk)| == lay.total && Stored(lay, old(fs.disk), puts) == fs.disk
  {
    hide Inv, FileIs, OnDisk, OthersKept, Dinode;
    LoggedHome(lay, fs.g, fs.disk, fs.dinodes, |fs.inodes|, fs.logged);
    InvShape(fs.g, fs.S(), fs.own);
    var ok := fs.Itrunc(i);
    LoggedHome(lay, fs.g, fs.disk, fs.dinodes, |fs.inodes|, fs.logged);
    puts := Burst(lay, old(fs.disk), fs.disk, fs.logged);
  }
}
