/** Pipes (kernel/pipe.c): a ring of 512 bytes behind two 32-bit counters that wrap.

    A call that sleeps gives up the pipe's lock, so each method below is one stretch between
    taking the lock and sleeping or returning; a blocked call is resumed by calling it again. */
module Pipe {
  import opened Common

  const PIPESIZE := 512

  datatype WriteStatus = Written | WriterSleeps | WriterFails
  datatype ReadResult<T> = Bytes(bytes: seq<T>) | ReaderSleeps | ReaderFails

  /** The counters are the numbers of bytes stored and delivered, as 32-bit words. */
  predicate Counts(nread: int, nwrite: int, delivered: nat, stored: nat) {
    && nread == delivered % UINT && nwrite == stored % UINT
    && delivered <= stored <= delivered + PIPESIZE
  }

  /** Whatever the counters have wrapped to, their difference is the number of bytes in the pipe,
      and the two tests of the code mean empty and full. */
  lemma {:induction false} Occupancy(nread: int, nwrite: int, delivered: nat, stored: nat)
    requires Counts(nread, nwrite, delivered, stored)
    ensures (nwrite - nread) % UINT == stored - delivered
    ensures nread == nwrite <==> stored == delivered
    ensures nwrite == (nread + PIPESIZE) % UINT <==> stored == delivered + PIPESIZE
  {
    var q, r := delivered / UINT, stored / UINT;
    assert delivered == q * UINT + nread && stored == r * UINT + nwrite;
    var d := stored - delivered;
    assert d == (r - q) * UINT + nwrite - nread;
    assert r == q || r == q + 1;
    if r == q {} else { assert d == UINT + nwrite - nread; }
  }

  lemma {:induction false} Slot(nwrite: int, stored: nat)
    requires nwrite == stored % UINT
    ensures nwrite % PIPESIZE == stored % PIPESIZE
    ensures (nwrite + 1) % UINT == (stored + 1) % UINT
  {
    var r := stored / UINT;
    assert stored == r * UINT + nwrite;
    assert r * UINT == (r * (UINT / PIPESIZE)) * PIPESIZE;
    SameRemainder(nwrite, r * (UINT / PIPESIZE));
    assert stored + 1 == r * UINT + (nwrite + 1);
  }

  lemma {:induction false} SameRemainder(a: nat, k: nat)
    ensures (k * PIPESIZE + a) % PIPESIZE == a % PIPESIZE
  {
    var x := k * PIPESIZE + a;
    assert a == (a / PIPESIZE) * PIPESIZE + a % PIPESIZE;
    assert x == (k + a / PIPESIZE) * PIPESIZE + a % PIPESIZE;
  }

  /** Bytes from .. to - 1 of the stream are in the ring. */
  ghost predicate Holds<T>(data: seq<T>, stream: seq<T>, from: nat) {
    && |data| == PIPESIZE && from <= |stream|
    && forall k :: from <= k < |stream| ==> data[k % PIPESIZE] == stream[k]
  }

  lemma {:induction false} HoldsPush<T>(data: seq<T>, stream: seq<T>, from: nat, x: T)
    requires Holds(data, stream, from) && |stream| < from + PIPESIZE
    ensures Holds(data[|stream| % PIPESIZE := x], stream + [x], from)
  {
    forall k | from <= k < |stream| ensures k % PIPESIZE != |stream| % PIPESIZE {
      Apart(k, |stream|);
    }
  }

  lemma {:induction false} Apart(k: nat, n: nat)
    requires k < n < k + PIPESIZE
    ensures k % PIPESIZE != n % PIPESIZE
  {
    assert k == (k / PIPESIZE) * PIPESIZE + k % PIPESIZE && n == (n / PIPESIZE) * PIPESIZE + n % PIPESIZE;
  }

  class Pipe<T(0)> {
    const data: array<T>
    var nread: int
    var nwrite: int
    var readopen: bool
    var writeopen: bool
    ghost var stored: seq<T>       // every byte written into the pipe so far
    ghost var delivered: nat       // how many of them readers have been given

    ghost predicate Valid()
      reads this, data
    {
      && Counts(nread, nwrite, delivered, |stored|)
      && Holds(data[..], stored, delivered)
    }

    constructor ()
      ensures Valid() && stored == [] && delivered == 0 && readopen && writeopen && fresh(data)
    {
      data := new T[PIPESIZE];
      nread, nwrite, readopen, writeopen, stored, delivered := 0, 0, true, true, [], 0;
    }

    /** The pipe is in state f of the run system below. */
    ghost predicate In(f: Flow<T>)
      reads this
    {
      && f.stored == stored && |f.got| == delivered && Bounded(f)
      && f.readopen == readopen && f.writeopen == writeopen
    }

    /** pipewrite from byte i on, until it returns or sleeps.  It stores exactly what there is
        room for and gives up the CPU or fails only when the pipe is full. */
    method Write(addr: seq<T>, i: nat, killed: bool, ghost f: Flow<T>, ghost w: nat)
      returns (r: WriteStatus, j: nat)
      requires Valid() && i <= |addr|
      requires In(f) && w < |f.calls| && f.calls[w] == Call(addr, i)
      modifies this`nwrite, this`stored, data
      ensures Valid() && j == Min(|addr|, i + PIPESIZE - (|old(stored)| - delivered)) && i <= j
      ensures stored == old(stored) + addr[i..j]
      ensures r == if j == |addr| then Written else if !readopen || killed then WriterFails else WriterSleeps
      ensures !r.Written? ==> |stored| == delivered + PIPESIZE
      ensures writeopen ==> Enabled(f, Store(w)) && In(Do(f, Store(w))) && Do(f, Store(w)).calls[w] == Call(addr, j)
    {
      hide Holds;
      j := i;
      while j < |addr|
        invariant Valid() && i <= j <= Min(|addr|, i + PIPESIZE - (|old(stored)| - delivered))
        invariant stored == old(stored) + addr[i..j]
      {
        Occupancy(nread, nwrite, delivered, |stored|);
        if nwrite == (nread + PIPESIZE) % UINT {
          return if !readopen || killed then WriterFails else WriterSleeps, j;
        }
        StoreOne(addr[j]);
        j := j + 1;
      }
      r := Written;
    }

    /** p->data[p->nwrite++ % PIPESIZE] = x, with room for it. */
    method StoreOne(x: T)
      requires Valid() && |stored| < delivered + PIPESIZE
      modifies this`nwrite, this`stored, data
      ensures Valid() && stored == old(stored) + [x]
    {
      Slot(nwrite, |stored|);
      HoldsPush(data[..], stored, delivered, x);
      ghost var was := data[..];
      data[nwrite % PIPESIZE] := x;
      assert data[..] == was[|stored| % PIPESIZE := x];
      nwrite, stored := (nwrite + 1) % UINT, stored + [x];
    }

    /** piperead of at most n bytes, until it returns or sleeps.  It returns the oldest bytes not
        yet delivered, and nothing at all (for n > 0) only at the end of the stream. */
    method Read(n: nat, killed: bool, ghost f: Flow<T>) returns (r: ReadResult<T>)
      requires Valid() && In(f)
      modifies this`nread, this`delivered
      ensures Valid()
      ensures old(delivered) == |stored| && writeopen ==>
        r == (if killed then ReaderFails else ReaderSleeps) && delivered == old(delivered)
      ensures old(delivered) < |stored| || !writeopen ==>
        delivered == Min(|stored|, old(delivered) + n) && r == Bytes(stored[old(delivered)..delivered])
      ensures r.Bytes? && r.bytes == [] && n > 0 ==> !writeopen && delivered == |stored|
      ensures !r.Bytes? ==> !Enabled(f, Deliver(n)) && In(f)
      ensures readopen && r.Bytes? ==>
        Enabled(f, Deliver(n)) && In(Do(f, Deliver(n))) && Do(f, Deliver(n)).got == f.got + r.bytes
    {
      hide Holds;
      Occupancy(nread, nwrite, delivered, |stored|);
      if nread == nwrite && writeopen {
        return if killed then ReaderFails else ReaderSleeps;
      }
      var i, addr := 0, [];
      while i < n
        invariant Valid() && i <= n && delivered == old(delivered) + i
        invariant addr == stored[old(delivered)..delivered]
      {
        Occupancy(nread, nwrite, delivered, |stored|);
        if nread == nwrite {
          break;
        }
        var x := TakeOne();
        addr, i := addr + [x], i + 1;
      }
      r := Bytes(addr);
    }

    /** p->data[p->nread++ % PIPESIZE], with a byte to be had. */
    method TakeOne() returns (x: T)
      requires Valid() && delivered < |stored|
      modifies this`nread, this`delivered
      ensures Valid() && delivered == old(delivered) + 1 && x == stored[old(delivered)]
    {
      Slot(nread, delivered);
      x := data[nread % PIPESIZE];
      nread, delivered := (nread + 1) % UINT, delivered + 1;
    }

    /** pipeclose of one end; says whether the pipe itself is freed. */
    method Close(writable: bool, ghost f: Flow<T>) returns (freed: bool)
      requires Valid() && In(f) && (if writable then writeopen else readopen)
      modifies this`readopen, this`writeopen
      ensures Valid() && writeopen == (old(writeopen) && !writable) && readopen == (old(readopen) && writable)
      ensures freed <==> !readopen && !writeopen
      ensures Enabled(f, Shut(writable)) && In(Do(f, Shut(writable)))
    {
      if writable {
        writeopen := false;
      } else {
        readopen := false;
      }
      freed := !readopen && !writeopen;
    }
  }

  // ---- Runs: any number of writers and readers, interleaved in any way ----

  /** One call of pipewrite and how far it has got. */
  datatype Call<T> = Call(addr: seq<T>, pos: nat)

  datatype Flow<T> = Flow(
    stored: seq<T>,            // every byte written into the pipe
    tags: seq<nat>,            // the call that wrote it
    got: seq<T>,               // every byte that readers were given, in order
    calls: seq<Call<T>>,
    readopen: bool,
    writeopen: bool)

  datatype Step<T> =
    | Begin(addr: seq<T>)      // a process calls pipewrite
    | Store(w: nat)            // call w runs until it returns or sleeps
    | Deliver(n: nat)          // a piperead that does not sleep
    | Shut(writable: bool)

  predicate Bounded<T>(f: Flow<T>) {
    |f.got| <= |f.stored| <= |f.got| + PIPESIZE && |f.tags| == |f.stored|
  }

  /** An end is used only while it is open. */
  predicate Enabled<T>(f: Flow<T>, a: Step<T>) {
    match a
    case Begin(_) => f.writeopen
    case Store(w) => f.writeopen && w < |f.calls| && f.calls[w].pos <= |f.calls[w].addr|
    case Deliver(_) => f.readopen && (|f.got| < |f.stored| || !f.writeopen)
    case Shut(writable) => if writable then f.writeopen else f.readopen
  }

  function Do<T>(f: Flow<T>, a: Step<T>): (g: Flow<T>)
    requires Enabled(f, a) && Bounded(f)
  {
    match a
    case Begin(addr) => f.(calls := f.calls + [Call(addr, 0)])
    case Store(w) =>
      var c := f.calls[w];
      var j := Min(|c.addr|, c.pos + PIPESIZE - (|f.stored| - |f.got|));
      f.(stored := f.stored + c.addr[c.pos..j], tags := f.tags + seq(j - c.pos, _ => w),
         calls := f.calls[w := c.(pos := j)])
    case Deliver(n) => f.(got := f.got + f.stored[|f.got|..Min(|f.stored|, |f.got| + n)])
    case Shut(writable) => f.(writeopen := f.writeopen && !writable, readopen := f.readopen && writable)
  }

  predicate CanRun<T(!new)>(f: Flow<T>, run: seq<Step<T>>)
    decreases |run|
  {
    run == [] || (Bounded(f) && Enabled(f, run[0]) && CanRun(Do(f, run[0]), run[1..]))
  }

  function After<T(!new)>(f: Flow<T>, run: seq<Step<T>>): Flow<T>
    requires CanRun(f, run)
    decreases |run|
  {
    if run == [] then f else After(Do(f, run[0]), run[1..])
  }

  /** The stored bytes that call w wrote. */
  function Mine<T>(stored: seq<T>, tags: seq<nat>, w: nat): seq<T>
    requires |stored| == |tags|
  {
    if stored == [] then []
    else Mine(stored[..|stored| - 1], tags[..|tags| - 1], w) +
         if tags[|tags| - 1] == w then [stored[|stored| - 1]] else []
  }

  lemma {:induction false} MineAppend<T>(stored: seq<T>, tags: seq<nat>, w: nat, bytes: seq<T>, v: nat)
    requires |stored| == |tags|
    ensures Mine(stored + bytes, tags + seq(|bytes|, _ => v), w) ==
            Mine(stored, tags, w) + if v == w then bytes else []
    decreases |bytes|
  {
    var n := |bytes|;
    var all, marks := stored + bytes, tags + seq(n, _ => v);
    if n == 0 {
      assert all == stored && marks == tags;
    } else {
      MineAppend(stored, tags, w, bytes[..n - 1], v);
      assert all[..|all| - 1] == stored + bytes[..n - 1];
      assert marks[..|marks| - 1] == tags + seq(n - 1, _ => v);
      assert bytes == bytes[..n - 1] + [bytes[n - 1]];
    }
  }

  ghost predicate Inv<T(!new)>(f: Flow<T>) {
    && Bounded(f) && f.got <= f.stored
    && (forall k :: 0 <= k < |f.tags| ==> f.tags[k] < |f.calls|)
    && (forall w :: 0 <= w < |f.calls| ==>
          f.calls[w].pos <= |f.calls[w].addr| && Mine(f.stored, f.tags, w) == f.calls[w].addr[..f.calls[w].pos])
  }

  lemma {:induction false} MineNone<T>(stored: seq<T>, tags: seq<nat>, w: nat)
    requires |stored| == |tags| && forall k :: 0 <= k < |tags| ==> tags[k] != w
    ensures Mine(stored, tags, w) == []
    decreases |stored|
  {
    if stored != [] { MineNone(stored[..|stored| - 1], tags[..|tags| - 1], w); }
  }

  lemma {:induction false} StepInv<T(!new)>(f: Flow<T>, a: Step<T>)
    requires Inv(f) && Enabled(f, a)
    ensures Inv(Do(f, a))
    ensures !f.writeopen ==> Do(f, a).stored == f.stored && !Do(f, a).writeopen
  {
    hide Mine;
    match a
    case Begin(addr) => MineNone(f.stored, f.tags, |f.calls|);
    case Store(w) => StoreInv(f, w);
    case Deliver(n) =>
      assert f.stored[..|f.got|] == f.got;
    case Shut(_) =>
  }

  lemma {:induction false} StoreInv<T(!new)>(f: Flow<T>, w: nat)
    requires Inv(f) && Enabled(f, Store(w))
    ensures Inv(Do(f, Store(w)))
  {
    hide Mine;
    var g := Do(f, Store(w));
    var c, j := f.calls[w], g.calls[w].pos;
    assert c.addr[..j] == c.addr[..c.pos] + c.addr[c.pos..j];
    forall v | 0 <= v < |g.calls| ensures Mine(g.stored, g.tags, v) == g.calls[v].addr[..g.calls[v].pos] {
      MineAppend(f.stored, f.tags, v, c.addr[c.pos..j], w);
    }
  }

  /** FIFO.  Whatever the interleaving, the bytes given to readers are a prefix of the bytes
      stored, at most PIPESIZE of which are undelivered, and the bytes of each write appear in
      the stream once, in order and without gaps up to where that write has got. */
  lemma {:induction false} Fifo<T(!new)>(f: Flow<T>, run: seq<Step<T>>)
    requires Inv(f) && CanRun(f, run)
    ensures Inv(After(f, run))
    decreases |run|
  {
    if run != [] {
      StepInv(f, run[0]);
      Fifo(Do(f, run[0]), run[1..]);
    }
  }

  /** End of file is final: once a read can return nothing, every later read returns nothing. */
  lemma {:induction false} EndOfFile<T(!new)>(f: Flow<T>, run: seq<Step<T>>)
    requires Inv(f) && CanRun(f, run) && !f.writeopen && f.got == f.stored
    ensures After(f, run).stored == f.stored && After(f, run).got == f.got
    decreases |run|
  {
    if run != [] {
      StepInv(f, run[0]);
      EndOfFile(Do(f, run[0]), run[1..]);
    }
  }
}
