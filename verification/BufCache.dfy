/** The buffer cache of kernel/bio.c over the disk of kernel/memide.c.

    Every method but Brelse, which is two of them, is one critical section or one use of a locked
    buffer, and takes one step of the run system below.  So over any interleaving of processes
    what a block currently holds (Current) changes only when a client writes it, at most one
    buffer holds a block of a real device, and a buffer that is referenced or dirty is never
    recycled. */
module BufCache {
  import opened Common

  const NBUF: nat := 30
  const HEAD: int := NBUF      // &bcache.head
  const DISK: nat := 1         // the only device memide.c serves
  const NONE: int := -1

  // ---- The doubly linked LRU list ----

  /** Element k of the ring through the head: position -1 and |q| are the head itself. */
  function RingAt(q: seq<int>, k: int): int {
    if 0 <= k < |q| then q[k] else HEAD
  }

  /** next and prev link the head and the buffers of q, most recently used first. */
  ghost predicate Ring(next: seq<int>, prev: seq<int>, q: seq<int>) {
    && |next| == |prev| == NBUF + 1 && Distinct(q)
    && (forall k :: 0 <= k < |q| ==> 0 <= q[k] < NBUF)
    && (forall k {:trigger next[RingAt(q, k)]} :: -1 <= k < |q| ==> next[RingAt(q, k)] == RingAt(q, k + 1))
    && (forall k {:trigger prev[RingAt(q, k)]} :: 0 <= k <= |q| ==> prev[RingAt(q, k)] == RingAt(q, k - 1))
  }

  /** Linking b in right behind the head. */
  lemma {:induction false} RingPush(next: seq<int>, prev: seq<int>, q: seq<int>, b: int)
    requires Ring(next, prev, q) && 0 <= b < NBUF && b !in q
    ensures 0 <= next[HEAD] <= NBUF
    ensures Ring(next[b := next[HEAD]][HEAD := b], prev[b := HEAD][next[HEAD] := b], [b] + q)
  {
    assert next[RingAt(q, -1)] == RingAt(q, 0);
    var n, p, r := next[b := next[HEAD]][HEAD := b], prev[b := HEAD][next[HEAD] := b], [b] + q;
    forall k | -1 <= k < |r| ensures n[RingAt(r, k)] == RingAt(r, k + 1) {
      if k >= 1 { assert next[RingAt(q, k - 1)] == RingAt(q, k); }
    }
    forall k | 0 <= k <= |r| ensures p[RingAt(r, k)] == RingAt(r, k - 1) {
      if k >= 2 { assert prev[RingAt(q, k - 1)] == RingAt(q, k - 2); }
    }
  }

  /** Unlinking the k-th buffer. */
  lemma {:induction false} RingRemove(next: seq<int>, prev: seq<int>, q: seq<int>, k: nat)
    requires Ring(next, prev, q) && k < |q|
    ensures var b := q[k];
            && 0 <= next[b] <= NBUF && 0 <= prev[b] <= NBUF
            && Ring(next[prev[b] := next[b]], prev[next[b] := prev[b]], q[..k] + q[k + 1..])
  {
    var b, r := q[k], q[..k] + q[k + 1..];
    assert next[RingAt(q, k)] == RingAt(q, k + 1) && prev[RingAt(q, k)] == RingAt(q, k - 1);
    var n, p := next[prev[b] := next[b]], prev[next[b] := prev[b]];
    forall j | -1 <= j < |r| ensures n[RingAt(r, j)] == RingAt(r, j + 1) {
      if j < k - 1 {
        assert next[RingAt(q, j)] == RingAt(q, j + 1);
      } else if j >= k {
        assert next[RingAt(q, j + 1)] == RingAt(q, j + 2);
      }
    }
    forall j | 0 <= j <= |r| ensures p[RingAt(r, j)] == RingAt(r, j - 1) {
      if j < k {
        assert prev[RingAt(q, j)] == RingAt(q, j - 1);
      } else if j > k {
        assert prev[RingAt(q, j + 1)] == RingAt(q, j);
      }
    }
  }

  // ---- Buffers ----

  datatype Buf<T> = Buf(dev: nat, blockno: nat, valid: bool, dirty: bool, refcnt: nat, locked: bool, data: T)

  predicate Holds<T>(b: Buf<T>, dev: nat, blockno: nat) {
    b.dev == dev && b.blockno == blockno
  }

  /** What block `blockno` of the disk currently holds: the cached copy if there is one. */
  ghost function Current<T>(bufs: seq<Buf<T>>, disk: seq<T>, blockno: nat): T
    requires blockno < |disk|
  {
    if k :| Caches(bufs, k, blockno) then bufs[k].data else disk[blockno]
  }

  predicate Caches<T>(bufs: seq<Buf<T>>, k: int, blockno: nat) {
    0 <= k < |bufs| && Holds(bufs[k], DISK, blockno) && bufs[k].valid
  }

  /** One buffer per block of a real device, clean buffers agree with the disk, dirty ones are
      valid, and only referenced buffers are locked. */
  ghost predicate Coherent<T>(bufs: seq<Buf<T>>, disk: seq<T>) {
    && (forall j, k :: 0 <= j < k < |bufs| && bufs[j].dev != 0 ==> !Holds(bufs[k], bufs[j].dev, bufs[j].blockno))
    && (forall k :: 0 <= k < |bufs| && bufs[k].valid ==> bufs[k].dev == DISK && bufs[k].blockno < |disk|)
    && (forall k :: 0 <= k < |bufs| && bufs[k].valid && !bufs[k].dirty ==> bufs[k].data == disk[bufs[k].blockno])
    && (forall k :: 0 <= k < |bufs| && bufs[k].dirty ==> bufs[k].valid)
    && (forall k :: 0 <= k < |bufs| && bufs[k].locked ==> bufs[k].refcnt > 0)
  }

  lemma {:induction false} CurrentCached<T>(bufs: seq<Buf<T>>, disk: seq<T>, k: nat)
    requires Coherent(bufs, disk) && k < |bufs| && bufs[k].valid
    ensures Current(bufs, disk, bufs[k].blockno) == bufs[k].data
  {
    assert Caches(bufs, k, bufs[k].blockno);
  }

  /** A block whose cached copy is untouched keeps its contents. */
  lemma {:induction false} SameCopies<T>(bufs: seq<Buf<T>>, disk: seq<T>, bufs2: seq<Buf<T>>, disk2: seq<T>, n: nat)
    requires Coherent(bufs, disk) && Coherent(bufs2, disk2)
    requires n < |disk| == |disk2| && |bufs2| == |bufs| && disk2[n] == disk[n]
    requires forall k :: 0 <= k < |bufs| ==>
               (Caches(bufs2, k, n) <==> Caches(bufs, k, n)) && (Caches(bufs, k, n) ==> bufs2[k].data == bufs[k].data)
    ensures Current(bufs2, disk2, n) == Current(bufs, disk, n)
  {
    if k :| Caches(bufs, k, n) {
      CurrentCached(bufs, disk, k);
      CurrentCached(bufs2, disk2, k);
    }
  }

  /** The cache shows the same blocks before and after. */
  ghost predicate SameBlocks<T(!new)>(bufs: seq<Buf<T>>, bufs2: seq<Buf<T>>, disk: seq<T>) {
    forall n :: 0 <= n < |disk| ==> Current(bufs2, disk, n) == Current(bufs, disk, n)
  }

  /** Recycling a buffer that is neither referenced nor dirty loses nothing. */
  lemma {:induction false} RecycleKeeps<T(!new)>(bufs: seq<Buf<T>>, disk: seq<T>, v: nat, dev: nat, blockno: nat)
    requires Coherent(bufs, disk) && v < |bufs| && bufs[v].refcnt == 0 && !bufs[v].dirty
    requires forall k :: 0 <= k < |bufs| ==> !Holds(bufs[k], dev, blockno)
    ensures var bufs2 := bufs[v := bufs[v].(dev := dev, blockno := blockno, valid := false, dirty := false,
          refcnt := 1)];
            Coherent(bufs2, disk) && SameBlocks(bufs, bufs2, disk)
  {
    var bufs2 := bufs[v := bufs[v].(dev := dev, blockno := blockno, valid := false, dirty := false, refcnt := 1)];
    forall n | 0 <= n < |disk| ensures Current(bufs2, disk, n) == Current(bufs, disk, n) {
      if Caches(bufs, v, n) {
        CurrentCached(bufs, disk, v);
      } else {
        SameCopies(bufs, disk, bufs2, disk, n);
      }
    }
  }

  /** Changing only the reference count and the lock of a buffer. */
  lemma {:induction false} CountsKeep<T(!new)>(bufs: seq<Buf<T>>, disk: seq<T>, v: nat, refcnt: nat, locked: bool)
    requires Coherent(bufs, disk) && v < |bufs| && (locked ==> refcnt > 0)
    ensures var bufs2 := bufs[v := bufs[v].(refcnt := refcnt, locked := locked)];
            Coherent(bufs2, disk) && SameBlocks(bufs, bufs2, disk)
  {
    var bufs2 := bufs[v := bufs[v].(refcnt := refcnt, locked := locked)];
    forall n | 0 <= n < |disk| ensures Current(bufs2, disk, n) == Current(bufs, disk, n) {
      SameCopies(bufs, disk, bufs2, disk, n);
    }
  }

  /** The read half of iderw. */
  lemma {:induction false} LoadKeeps<T(!new)>(bufs: seq<Buf<T>>, disk: seq<T>, v: nat)
    requires Coherent(bufs, disk) && v < |bufs| && !bufs[v].valid && bufs[v].dev == DISK && bufs[v].blockno < |disk|
    ensures var bufs2 := bufs[v := bufs[v].(data := disk[bufs[v].blockno], valid := true)];
            Coherent(bufs2, disk) && SameBlocks(bufs, bufs2, disk)
  {
    var bufs2 := bufs[v := bufs[v].(data := disk[bufs[v].blockno], valid := true)];
    forall n | 0 <= n < |disk| ensures Current(bufs2, disk, n) == Current(bufs, disk, n) {
      if n == bufs[v].blockno {
        CurrentCached(bufs2, disk, v);
      } else {
        SameCopies(bufs, disk, bufs2, disk, n);
      }
    }
  }

  /** Block `blockno` has the new contents, and no other block changes. */
  ghost predicate Stored<T(!new)>(bufs: seq<Buf<T>>, disk: seq<T>, bufs2: seq<Buf<T>>, disk2: seq<T>, blockno: nat,
        data: T) {
    && |disk2| == |disk|
    && forall n :: 0 <= n < |disk| ==>
         Current(bufs2, disk2, n) == if n == blockno then data else Current(bufs, disk, n)
  }

  /** A client fills a locked buffer and passes it to log_write (todisk == false) or to bwrite. */
  lemma {:induction false} StoreMeans<T(!new)>(bufs: seq<Buf<T>>, disk: seq<T>, v: nat, data: T, todisk: bool)
    requires Coherent(bufs, disk) && v < |bufs| && bufs[v].dev == DISK && bufs[v].blockno < |disk|
    ensures var bufs2 := bufs[v := bufs[v].(data := data, valid := true, dirty := !todisk)];
            var disk2 := if todisk then disk[bufs[v].blockno := data] else disk;
            Coherent(bufs2, disk2) && Stored(bufs, disk, bufs2, disk2, bufs[v].blockno, data)
  {
    var bufs2 := bufs[v := bufs[v].(data := data, valid := true, dirty := !todisk)];
    var disk2 := if todisk then disk[bufs[v].blockno := data] else disk;
    StoreCoherent(bufs, disk, v, data, todisk);
    forall n | 0 <= n < |disk|
      ensures Current(bufs2, disk2, n) == if n == bufs[v].blockno then data else Current(bufs, disk, n)
    {
      if n == bufs[v].blockno {
        CurrentCached(bufs2, disk2, v);
      } else {
        SameCopies(bufs, disk, bufs2, disk2, n);
      }
    }
  }

  lemma {:induction false} StoreCoherent<T>(bufs: seq<Buf<T>>, disk: seq<T>, v: nat, data: T, todisk: bool)
    requires Coherent(bufs, disk) && v < |bufs| && bufs[v].dev == DISK && bufs[v].blockno < |disk|
    ensures Coherent(bufs[v := bufs[v].(data := data, valid := true, dirty := !todisk)],
                     if todisk then disk[bufs[v].blockno := data] else disk)
  {
  }

  // ---- Runs ----

  datatype Cache<T> = Cache(bufs: seq<Buf<T>>, disk: seq<T>)

  /** The steps of the cache, on any buffer, by any process. */
  datatype Op<T> =
    | Ref(v: nat)                                // bget finds the block cached
    | Recycle(v: nat, dev: nat, blockno: nat)    // bget takes over an idle buffer
    | Lock(v: nat)
    | Fetch(v: nat)                              // bread reads the block in
    | Put(v: nat, data: T, todisk: bool)         // log_write or bwrite of a filled buffer
    | Unlock(v: nat)                             // brelse gives up the sleep lock
    | Drop(v: nat)                               // brelse, under bcache.lock

  predicate Enabled<T>(c: Cache<T>, a: Op<T>) {
    a.v < |c.bufs| &&
    match a
    case Ref(v) => true
    case Recycle(v, dev, blockno) =>
      && c.bufs[v].refcnt == 0 && !c.bufs[v].dirty
      && forall k :: 0 <= k < |c.bufs| ==> !Holds(c.bufs[k], dev, blockno)
    case Lock(v) => c.bufs[v].refcnt > 0 && !c.bufs[v].locked
    case Fetch(v) => c.bufs[v].locked && !c.bufs[v].valid && c.bufs[v].dev == DISK && c.bufs[v].blockno < |c.disk|
    case Put(v, _, _) => c.bufs[v].locked && c.bufs[v].valid
    case Unlock(v) => c.bufs[v].locked
    case Drop(v) => c.bufs[v].refcnt > if c.bufs[v].locked then 1 else 0
  }

  /** The cache takes step a from c to d. */
  ghost predicate Takes<T(!new)>(c: Cache<T>, a: Op<T>, d: Cache<T>) {
    Coherent(c.bufs, c.disk) && Enabled(c, a) && d == Do(c, a)
  }

  ghost function Do<T>(c: Cache<T>, a: Op<T>): Cache<T>
    requires Enabled(c, a) && Coherent(c.bufs, c.disk)
  {
    var b := c.bufs[a.v];
    match a
    case Ref(v) => c.(bufs := c.bufs[v := b.(refcnt := b.refcnt + 1)])
    case Recycle(v, dev, blockno) =>
      c.(bufs := c.bufs[v := b.(dev := dev, blockno := blockno, valid := false, dirty := false, refcnt := 1)])
    case Lock(v) => c.(bufs := c.bufs[v := b.(locked := true)])
    case Fetch(v) => c.(bufs := c.bufs[v := b.(data := c.disk[b.blockno], valid := true)])
    case Put(v, data, todisk) =>
      Cache(c.bufs[v := b.(data := data, valid := true, dirty := !todisk)],
            if todisk then c.disk[b.blockno := data] else c.disk)
    case Unlock(v) => c.(bufs := c.bufs[v := b.(locked := false)])
    case Drop(v) => c.(bufs := c.bufs[v := b.(refcnt := b.refcnt - 1)])
  }

  /** The contents of block n after a step, as a client thinks of it. */
  ghost function Written<T>(c: Cache<T>, a: Op<T>, n: nat, x: T): T
    requires a.v < |c.bufs|
  {
    if a.Put? && c.bufs[a.v].blockno == n then a.data else x
  }

  lemma {:induction false} StepTransparent<T(!new)>(c: Cache<T>, a: Op<T>)
    requires Coherent(c.bufs, c.disk) && Enabled(c, a)
    ensures var d := Do(c, a);
            && Coherent(d.bufs, d.disk) && |d.disk| == |c.disk|
            && forall n :: 0 <= n < |c.disk| ==>
                 Current(d.bufs, d.disk, n) == Written(c, a, n, Current(c.bufs, c.disk, n))
  {
    hide Coherent, Current;
    LockOk(c.bufs, c.disk, a.v);
    match a
    case Ref(v) => CountsKeep(c.bufs, c.disk, v, c.bufs[v].refcnt + 1, c.bufs[v].locked);
    case Recycle(v, dev, blockno) => RecycleKeeps(c.bufs, c.disk, v, dev, blockno);
    case Lock(v) => CountsKeep(c.bufs, c.disk, v, c.bufs[v].refcnt, true);
    case Fetch(v) => LoadKeeps(c.bufs, c.disk, v);
    case Put(v, data, todisk) =>
      ValidOnDisk(c.bufs, c.disk, v);
      StoreMeans(c.bufs, c.disk, v, data, todisk);
    case Unlock(v) => CountsKeep(c.bufs, c.disk, v, c.bufs[v].refcnt, false);
    case Drop(v) => CountsKeep(c.bufs, c.disk, v, c.bufs[v].refcnt - 1, c.bufs[v].locked);
  }

  ghost predicate CanRun<T(!new)>(c: Cache<T>, run: seq<Op<T>>)
    requires Coherent(c.bufs, c.disk)
    decreases |run|
  {
    run == [] || (Enabled(c, run[0]) && (StepTransparent(c, run[0]); CanRun(Do(c, run[0]), run[1..])))
  }

  ghost function After<T(!new)>(c: Cache<T>, run: seq<Op<T>>): Cache<T>
    requires Coherent(c.bufs, c.disk) && CanRun(c, run)
    decreases |run|
  {
    if run == [] then c else StepTransparent(c, run[0]); After(Do(c, run[0]), run[1..])
  }

  /** The last contents any client stored in block n during the run, x if none did. */
  ghost function LastStored<T(!new)>(c: Cache<T>, run: seq<Op<T>>, n: nat, x: T): T
    requires Coherent(c.bufs, c.disk) && CanRun(c, run)
    decreases |run|
  {
    if run == [] then x
    else StepTransparent(c, run[0]); LastStored(Do(c, run[0]), run[1..], n, Written(c, run[0], n, x))
  }

  /** Cache transparency.  After any run of the cache, a block shows what was stored in it last,
      whether that went to the disk or is only pinned in a buffer, and what it showed at first
      if nothing was; so does every valid buffer that holds it. */
  lemma {:induction false} Transparent<T(!new)>(c: Cache<T>, run: seq<Op<T>>, n: nat)
    requires Coherent(c.bufs, c.disk) && CanRun(c, run) && n < |c.disk|
    ensures var d := After(c, run);
            && Coherent(d.bufs, d.disk) && |d.disk| == |c.disk|
            && Current(d.bufs, d.disk, n) == LastStored(c, run, n, Current(c.bufs, c.disk, n))
            && forall k :: 0 <= k < |d.bufs| && Caches(d.bufs, k, n) ==>
                 d.bufs[k].data == LastStored(c, run, n, Current(c.bufs, c.disk, n))
    decreases |run|
  {
    hide Coherent, Current, Enabled, Do, Written;
    if run == [] {
      forall k | 0 <= k < |c.bufs| && Caches(c.bufs, k, n) ensures c.bufs[k].data == Current(c.bufs, c.disk, n) {
        CurrentCached(c.bufs, c.disk, k);
      }
    } else {
      StepTransparent(c, run[0]);
      Transparent(Do(c, run[0]), run[1..], n);
    }
  }

  // ---- References, locks and pins ----

  /** References taken on buffer v during the run, less those given up. */
  function Refs<T>(run: seq<Op<T>>, v: nat): int {
    if run == [] then 0
    else
      var a := run[0];
      (if a.v != v then 0 else if a.Ref? || a.Recycle? then 1 else if a.Drop? then -1 else 0) + Refs(run[1..], v)
  }

  function Locks<T>(run: seq<Op<T>>, v: nat): int {
    if run == [] then 0
    else
      var a := run[0];
      (if a.v != v then 0 else if a.Lock? then 1 else if a.Unlock? then -1 else 0) + Locks(run[1..], v)
  }

  /** The last store to buffer v left it pinned; pinned says what it was at first. */
  function Pinned<T>(run: seq<Op<T>>, v: nat, pinned: bool): bool {
    if run == [] then pinned
    else Pinned(run[1..], v, if run[0].Put? && run[0].v == v then !run[0].todisk else pinned)
  }

  /** After any run refcnt counts the references taken and not given up, the lock is held by as many
      as have taken it and not released it, and a buffer is pinned from a log_write to a bwrite. */
  lemma {:induction false} Accounts<T(!new)>(c: Cache<T>, run: seq<Op<T>>, v: nat)
    requires Coherent(c.bufs, c.disk) && CanRun(c, run) && v < |c.bufs|
    ensures var d := After(c, run);
            && |d.bufs| == |c.bufs|
            && d.bufs[v].refcnt == c.bufs[v].refcnt + Refs(run, v)
            && Count(d.bufs[v].locked) == Count(c.bufs[v].locked) + Locks(run, v)
            && d.bufs[v].dirty == Pinned(run, v, c.bufs[v].dirty)
    decreases |run|
  {
    hide Coherent;
    if run != [] {
      StepTransparent(c, run[0]);
      Accounts(Do(c, run[0]), run[1..], v);
    }
  }

  /** A buffer that somebody holds, or that is pinned, is not recycled: at no point of a run is there a
      step that takes buffer v over while references to it are left or its last store is only logged. */
  lemma {:induction false} HeldNotRecycled<T(!new)>(c: Cache<T>, run: seq<Op<T>>, v: nat, dev: nat, blockno: nat)
    requires Coherent(c.bufs, c.disk) && CanRun(c, run) && v < |c.bufs|
    requires c.bufs[v].refcnt + Refs(run, v) > 0 || Pinned(run, v, c.bufs[v].dirty)
    ensures !Enabled(After(c, run), Recycle(v, dev, blockno))
  {
    hide Coherent, CanRun, After;
    Accounts(c, run, v);
  }

  /** References to v are left throughout the run. */
  ghost predicate HeldThroughout<T>(run: seq<Op<T>>, v: nat, refcnt: int)
    decreases |run|
  {
    refcnt > 0 && (run == [] || HeldThroughout(run[1..], v, refcnt + Refs([run[0]], v)))
  }

  /** So whoever holds a buffer finds the same block in it until the reference is given up. */
  lemma {:induction false} HeldKeepsBlock<T(!new)>(c: Cache<T>, run: seq<Op<T>>, v: nat)
    requires Coherent(c.bufs, c.disk) && CanRun(c, run) && v < |c.bufs|
    requires HeldThroughout(run, v, c.bufs[v].refcnt)
    ensures var d := After(c, run);
            |d.bufs| == |c.bufs| && d.bufs[v].dev == c.bufs[v].dev && d.bufs[v].blockno == c.bufs[v].blockno
    decreases |run|
  {
    hide Coherent;
    if run != [] {
      StepTransparent(c, run[0]);
      assert [run[0]][1..] == [];
      assert Refs([run[0]], v) == Do(c, run[0]).bufs[v].refcnt - c.bufs[v].refcnt;
      HeldKeepsBlock(Do(c, run[0]), run[1..], v);
    }
  }

  // ---- Age ----

  /** stamp[b] is the time of the last final release of b; the list is in that order. */
  ghost predicate Aged(q: seq<int>, stamp: seq<nat>, clock: nat) {
    && |stamp| == NBUF
    && (forall k :: 0 <= k < |q| ==> 0 <= q[k] < NBUF)
    && (forall b :: 0 <= b < NBUF ==> stamp[b] < clock)
    && (forall j, k :: 0 <= j < k < |q| ==> stamp[q[j]] > stamp[q[k]])
  }

  ghost predicate AllBufs(q: seq<int>) {
    forall b :: 0 <= b < NBUF ==> b in q
  }

  function ToFront(q: seq<int>, k: nat): seq<int>
    requires k < |q|
  {
    [q[k]] + (q[..k] + q[k + 1..])
  }

  lemma {:induction false} FrontAged(q: seq<int>, stamp: seq<nat>, clock: nat, k: nat)
    requires Aged(q, stamp, clock) && AllBufs(q) && Distinct(q) && k < |q|
    ensures Aged(ToFront(q, k), stamp[q[k] := clock], clock + 1) && AllBufs(ToFront(q, k))
  {
    var r := ToFront(q, k);
    forall b | 0 <= b < NBUF ensures b in r {
      assert b in q;
      var j :| 0 <= j < |q| && q[j] == b;
      assert r[if j == k then 0 else if j < k then j + 1 else j] == b;
    }
  }

  class Bcache<T(0, !new)> {
    const buf: array<Buf<T>>
    const next: array<int>
    const prev: array<int>
    var disk: seq<T>
    ghost var lru: seq<int>
    ghost var stamp: seq<nat>
    ghost var clock: nat

    ghost predicate Shape()
      reads this
    {
      buf.Length == NBUF && next.Length == prev.Length == NBUF + 1 && next != prev
    }

    ghost predicate Valid()
      reads this, buf, next, prev
    {
      && Shape()
      && Ring(next[..], prev[..], lru) && AllBufs(lru) && Aged(lru, stamp, clock)
      && Coherent(buf[..], disk)
    }

    ghost function Abs(): Cache<T>
      reads this, buf
    {
      Cache(buf[..], disk)
    }

    /** binit: all buffers on the list, labelled device 0, block 0. */
    constructor (disk: seq<T>, zero: T)
      ensures Valid() && this.disk == disk
      ensures forall n :: 0 <= n < |disk| ==> Current(buf[..], disk, n) == disk[n]
    {
      buf := new Buf<T>[NBUF](_ => Buf(0, 0, false, false, 0, false, zero));
      next := new int[NBUF + 1](_ => HEAD);
      prev := new int[NBUF + 1](_ => HEAD);
      this.disk := disk;
      lru := [];
      stamp := seq(NBUF, i requires 0 <= i < NBUF => i);
      clock := NBUF;
      new;
      var b := 0;
      while b < NBUF
        invariant 0 <= b <= NBUF && Shape() && this.disk == disk
        invariant Ring(next[..], prev[..], lru)
        invariant |lru| == b && forall k :: 0 <= k < b ==> lru[k] == b - 1 - k
        invariant stamp == seq(NBUF, i requires 0 <= i < NBUF => i) && clock == NBUF
        invariant forall k :: 0 <= k < NBUF ==> buf[k] == Buf(0, 0, false, false, 0, false, zero)
      {
        RingPush(next[..], prev[..], lru, b);
        PushFront(b);
        b := b + 1;
      }
      forall k | 0 <= k < NBUF ensures k in lru { assert lru[NBUF - 1 - k] == k; }
    }

    /** Link b in behind the head. */
    method PushFront(b: int)
      requires Shape() && Ring(next[..], prev[..], lru) && 0 <= b < NBUF && b !in lru
      modifies next, prev, this`lru
      ensures Ring(next[..], prev[..], lru) && lru == [b] + old(lru)
    {
      hide Ring;
      RingPush(next[..], prev[..], lru, b);
      next[b] := next[HEAD];
      prev[b] := HEAD;
      prev[next[HEAD]] := b;
      next[HEAD] := b;
      lru := [b] + lru;
    }

    /** A buffer bget may recycle. */
    predicate Idle(b: int)
      requires buf.Length == NBUF && 0 <= b < NBUF
      reads buf
    {
      buf[b].refcnt == 0 && !buf[b].dirty
    }

    /** bget's forward scan: the buffer that holds the block, HEAD if there is none. */
    method Lookup(dev: nat, blockno: nat) returns (b: int)
      requires Valid()
      ensures 0 <= b <= NBUF
      ensures b < NBUF ==> Holds(buf[b], dev, blockno)
      ensures b == HEAD ==> forall k :: 0 <= k < NBUF ==> !Holds(buf[k], dev, blockno)
    {
      hide Coherent, Aged, Distinct;
      assert next[RingAt(lru, -1)] == RingAt(lru, 0);
      b := next[HEAD];
      ghost var j := 0;
      while b != HEAD
        invariant 0 <= j <= |lru| && b == RingAt(lru, j)
        invariant forall i :: 0 <= i < j ==> !Holds(buf[lru[i]], dev, blockno)
        decreases |lru| - j
      {
        if Holds(buf[b], dev, blockno) {
          return;
        }
        assert next[RingAt(lru, j)] == RingAt(lru, j + 1);
        b := next[b];
        j := j + 1;
      }
      assert j == |lru|;
      forall k | 0 <= k < NBUF ensures !Holds(buf[k], dev, blockno) {
        assert k in lru;
        var i :| 0 <= i < |lru| && lru[i] == k;
      }
    }

    /** bget's backward scan: the idle buffer released longest ago, HEAD if there is none. */
    method Victim() returns (b: int)
      requires Valid()
      ensures 0 <= b <= NBUF
      ensures b < NBUF ==> Idle(b) && forall k :: 0 <= k < NBUF && Idle(k) ==> stamp[b] <= stamp[k]
      ensures b == HEAD ==> forall k :: 0 <= k < NBUF ==> !Idle(k)
    {
      hide Coherent, Distinct;
      assert prev[RingAt(lru, |lru|)] == RingAt(lru, |lru| - 1);
      b := prev[HEAD];
      ghost var j := |lru| - 1;
      while b != HEAD
        invariant -1 <= j < |lru| && b == RingAt(lru, j)
        invariant forall i :: j < i < |lru| ==> !Idle(lru[i])
        decreases j
      {
        if buf[b].refcnt == 0 && !buf[b].dirty {
          forall k | 0 <= k < NBUF && Idle(k) ensures stamp[b] <= stamp[k] {
            assert k in lru;
            var i :| 0 <= i < |lru| && lru[i] == k;
          }
          return;
        }
        assert prev[RingAt(lru, j)] == RingAt(lru, j - 1);
        b := prev[b];
        j := j - 1;
      }
      assert j == -1;
      forall k | 0 <= k < NBUF ensures !Idle(k) {
        assert k in lru;
        var i :| 0 <= i < |lru| && lru[i] == k;
      }
    }

    /** bget up to the release of bcache.lock; NONE where it panics. */
    method Bget(dev: nat, blockno: nat) returns (b: int)
      requires Valid()
      modifies buf
      ensures Valid() && SameBlocks(old(buf[..]), buf[..], disk)
      ensures b == NONE ==>
                && buf[..] == old(buf[..])
                && forall k :: 0 <= k < NBUF ==> !Holds(buf[k], dev, blockno) && !Idle(k)
      ensures b != NONE ==>
                && 0 <= b < NBUF && Holds(buf[b], dev, blockno)
                && forall k :: 0 <= k < NBUF && k != b ==> buf[k] == old(buf[k])
      ensures b != NONE && Holds(old(buf[b]), dev, blockno) ==> Takes(old(Abs()), Ref(b), Abs())
      ensures b != NONE && !Holds(old(buf[b]), dev, blockno) ==>
                && Takes(old(Abs()), Recycle(b, dev, blockno), Abs())
                && forall k :: 0 <= k < NBUF && old(Idle(k)) ==> stamp[b] <= stamp[k]
    {
      hide Coherent, Ring, Aged, AllBufs, SameBlocks;
      b := Lookup(dev, blockno);
      if b != HEAD {
        LockOk(buf[..], disk, b);
        CountsKeep(buf[..], disk, b, buf[b].refcnt + 1, buf[b].locked);
        buf[b] := buf[b].(refcnt := buf[b].refcnt + 1);
        return;
      }
      b := Victim();
      if b != HEAD {
        RecycleKeeps(buf[..], disk, b, dev, blockno);
        buf[b] := buf[b].(dev := dev, blockno := blockno, valid := false, dirty := false, refcnt := 1);
        return;
      }
      SameSelf(buf[..], disk);
      b := NONE;
    }

    /** acquiresleep on the buffer's lock, once it is free. */
    method Acquire(b: int)
      requires Valid() && 0 <= b < NBUF && buf[b].refcnt > 0 && !buf[b].locked
      modifies buf
      ensures Valid() && SameBlocks(old(buf[..]), buf[..], disk) && Takes(old(Abs()), Lock(b), Abs())
    {
      hide Coherent, Ring, Aged, AllBufs, SameBlocks;
      CountsKeep(buf[..], disk, b, buf[b].refcnt, true);
      buf[b] := buf[b].(locked := true);
    }

    /** The end of bread: read the block in if the buffer is not valid.  `ok` is false where
        iderw panics: a device other than the disk, or a block past its end. */
    method Load(b: int) returns (ok: bool)
      requires Valid() && 0 <= b < NBUF && buf[b].locked
      modifies buf
      ensures Valid() && SameBlocks(old(buf[..]), buf[..], disk)
      ensures ok <==> old(buf[b]).valid || (old(buf[b]).dev == DISK && old(buf[b]).blockno < |disk|)
      ensures ok ==> buf[b].blockno < |disk| && buf[b].valid && buf[b].data == Current(buf[..], disk, buf[b].blockno)
      ensures !ok || old(buf[b]).valid ==> buf[..] == old(buf[..])
      ensures ok && !old(buf[b]).valid ==> Takes(old(Abs()), Fetch(b), Abs())
    {
      hide Coherent, Ring, Aged, AllBufs, SameBlocks;
      ok := true;
      if buf[b].valid {
        SameSelf(buf[..], disk);
      } else if buf[b].dev != DISK || buf[b].blockno >= |disk| {
        SameSelf(buf[..], disk);
        return false;
      } else {
        LoadKeeps(buf[..], disk, b);
        buf[b] := buf[b].(data := disk[buf[b].blockno], valid := true);
      }
      ValidOnDisk(buf[..], disk, b);
      CurrentCached(buf[..], disk, b);
    }

    /** A client fills a buffer it holds and calls log_write, which pins it. */
    method LogWrite(b: int, data: T)
      requires Valid() && 0 <= b < NBUF && buf[b].locked && buf[b].valid
      modifies buf
      ensures Valid() && Takes(old(Abs()), Put(b, data, false), Abs())
      ensures Stored(old(buf[..]), disk, buf[..], disk, buf[b].blockno, data)
    {
      hide Coherent, Ring, Aged, AllBufs, Stored;
      ValidOnDisk(buf[..], disk, b);
      StoreMeans(buf[..], disk, b, data, false);
      buf[b] := buf[b].(data := data, dirty := true);
      assert buf[..] == old(buf[..])[b := old(buf[b]).(data := data, valid := true, dirty := true)];
    }

    /** A client fills a buffer it holds and calls bwrite. */
    method Bwrite(b: int, data: T)
      requires Valid() && 0 <= b < NBUF && buf[b].locked && buf[b].valid
      modifies buf, this`disk
      ensures Valid() && Takes(old(Abs()), Put(b, data, true), Abs())
      ensures Stored(old(buf[..]), old(disk), buf[..], disk, buf[b].blockno, data)
    {
      hide Coherent, Ring, Aged, AllBufs, Stored;
      ValidOnDisk(buf[..], disk, b);
      StoreMeans(buf[..], disk, b, data, true);
      buf[b] := buf[b].(data := data, dirty := true);
      disk := disk[buf[b].blockno := buf[b].data];
      buf[b] := buf[b].(dirty := false, valid := true);
      assert buf[..] == old(buf[..])[b := old(buf[b]).(data := data, valid := true, dirty := false)];
    }

    /** brelse: releasesleep, after which others may take the buffer's lock, and then Unref. */
    method Brelse(b: int)
      requires Valid() && 0 <= b < NBUF && buf[b].locked
      modifies buf, next, prev, this`lru, this`stamp, this`clock
      ensures Valid() && SameBlocks(old(buf[..]), buf[..], disk)
      ensures Takes(old(Abs()), Unlock(b), Do(old(Abs()), Unlock(b)))
      ensures Takes(Do(old(Abs()), Unlock(b)), Drop(b), Abs())
    {
      hide Coherent, Ring, Aged, AllBufs, SameBlocks, Distinct;
      Release(b);
      ghost var bufs := buf[..];
      Unref(b);
      SameTrans(old(buf[..]), bufs, buf[..], disk);
    }

    /** releasesleep on the buffer's lock. */
    method Release(b: int)
      requires Valid() && 0 <= b < NBUF && buf[b].locked
      modifies buf
      ensures Valid() && SameBlocks(old(buf[..]), buf[..], disk) && Takes(old(Abs()), Unlock(b), Abs())
      ensures buf[b].refcnt > 0 && !buf[b].locked
    {
      hide Coherent, Ring, Aged, AllBufs, SameBlocks;
      LockOk(buf[..], disk, b);
      CountsKeep(buf[..], disk, b, buf[b].refcnt, false);
      buf[b] := buf[b].(locked := false);
    }

    /** The part of brelse under bcache.lock: the last reference moves the buffer to the front of
        the list. */
    method Unref(b: int)
      requires Valid() && 0 <= b < NBUF && buf[b].refcnt > if buf[b].locked then 1 else 0
      modifies buf, next, prev, this`lru, this`stamp, this`clock
      ensures Valid() && SameBlocks(old(buf[..]), buf[..], disk) && Takes(old(Abs()), Drop(b), Abs())
      ensures buf[b].refcnt > 0 ==> lru == old(lru) && stamp == old(stamp)
      ensures buf[b].refcnt == 0 ==>
                && b in old(lru) && lru == ToFront(old(lru), IndexOf(old(lru), b))
                && forall k :: 0 <= k < NBUF ==> stamp[k] == if k == b then old(clock) else old(stamp)[k]
    {
      hide Coherent, Ring, Aged, AllBufs, SameBlocks, Distinct;
      CountsKeep(buf[..], disk, b, buf[b].refcnt - 1, buf[b].locked);
      buf[b] := buf[b].(refcnt := buf[b].refcnt - 1);
      if buf[b].refcnt == 0 {
        InList(lru, b);
        ghost var k := IndexOf(lru, b);
        RingFacts(next[..], prev[..], lru);
        FrontAged(lru, stamp, clock, k);
        Unlink(b, k);
        PushFront(b);
        AgedShape(old(lru), stamp, clock);
        stamp, clock := stamp[b := clock], clock + 1;
      }
    }

    /** Take the k-th buffer off the list. */
    method Unlink(b: int, ghost k: nat)
      requires Shape() && Ring(next[..], prev[..], lru) && k < |lru| && lru[k] == b
      modifies next, prev, this`lru
      ensures Ring(next[..], prev[..], lru) && lru == old(lru)[..k] + old(lru)[k + 1..] && b !in lru
    {
      hide Ring;
      RingFacts(next[..], prev[..], lru);
      RingRemove(next[..], prev[..], lru, k);
      var n, p := next[b], prev[b];
      prev[n] := p;
      next[p] := n;
      lru := lru[..k] + lru[k + 1..];
    }
  }

  lemma {:induction false} InList(q: seq<int>, b: int)
    requires AllBufs(q) && 0 <= b < NBUF
    ensures b in q
  {
  }

  lemma {:induction false} RingFacts(next: seq<int>, prev: seq<int>, q: seq<int>)
    requires Ring(next, prev, q)
    ensures Distinct(q) && forall k :: 0 <= k < |q| ==> 0 <= q[k] < NBUF
  {
  }

  lemma {:induction false} AgedShape(q: seq<int>, stamp: seq<nat>, clock: nat)
    requires Aged(q, stamp, clock)
    ensures |stamp| == NBUF
  {
  }

  lemma {:induction false} LockOk<T>(bufs: seq<Buf<T>>, disk: seq<T>, k: nat)
    requires Coherent(bufs, disk) && k < |bufs|
    ensures bufs[k].locked ==> bufs[k].refcnt > 0
  {
  }

  lemma {:induction false} ValidOnDisk<T>(bufs: seq<Buf<T>>, disk: seq<T>, k: nat)
    requires Coherent(bufs, disk) && k < |bufs| && bufs[k].valid
    ensures bufs[k].dev == DISK && bufs[k].blockno < |disk|
  {
  }

  lemma {:induction false} SameTrans<T(!new)>(a: seq<Buf<T>>, b: seq<Buf<T>>, c: seq<Buf<T>>, disk: seq<T>)
    requires SameBlocks(a, b, disk) && SameBlocks(b, c, disk)
    ensures SameBlocks(a, c, disk)
  {
  }

  lemma {:induction false} SameSelf<T(!new)>(bufs: seq<Buf<T>>, disk: seq<T>)
    ensures SameBlocks(bufs, bufs, disk)
  {
  }
}
