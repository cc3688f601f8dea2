/** The redo log of kernel/log.c, over the synchronous disk of kernel/memide.c.

    A disk is a sequence of blocks and every `bwrite` is one atomic write.  The functions in
    the first half give the exact list of writes that commit and recovery issue; class `Log`
    is the imperative code, proved to issue exactly those writes in that order.  Module
    LogCrash then reasons about every prefix of the lists. */
module WriteAheadLog {
  import opened Common

  const LOGSIZE: nat := 3 * MAXOPBLOCKS
  const WORDS: nat := 128

  /** A 512-byte block seen as 128 ints, the view log.c takes of the header block. */
  type Block = b: seq<int> | |b| == WORDS witness seq(WORDS, _ => 0)
  type Disk = seq<Block>

  datatype Write = Write(bno: nat, data: Block)

  /** log.start and log.size, on a disk of `total` blocks. */
  datatype Layout = Layout(start: nat, size: nat, total: nat) {
    predicate InLog(b: int) {
      start <= b < start + size
    }

    predicate Fits(d: Disk) {
      1 <= size && start + size <= total == |d|
    }

    /** A block that log_write may be called on: on the disk and outside the log area. */
    predicate Home(b: int) {
      0 <= b < total && !InLog(b)
    }

    /** A list of block numbers that can stand in the log header. */
    ghost predicate Loggable(list: seq<int>) {
      && |list| <= LOGSIZE
      && |list| <= size - 1
      && (forall i :: 0 <= i < |list| ==> Home(list[i]))
      && (forall i, j :: 0 <= i < j < |list| ==> list[i] != list[j])
    }
  }

  ghost predicate InRange(ws: seq<Write>, d: Disk) {
    forall i :: 0 <= i < |ws| ==> ws[i].bno < |d|
  }

  /** The disk after the writes `ws`, in order. */
  ghost function Apply(d: Disk, ws: seq<Write>): (r: Disk)
    requires InRange(ws, d)
    ensures |r| == |d|
  {
    if ws == [] then d
    else
      var k := |ws| - 1;
      Apply(d, ws[..k])[ws[k].bno := ws[k].data]
  }

  /** The block numbers recorded in a header block. */
  function HeadList(b: Block): (r: seq<int>)
  {
    if 0 <= b[0] < WORDS then b[1..1 + b[0]] else []
  }

  /** A header block overwritten with `list`; the words past the list keep their old value. */
  function HeadBlock(b: Block, list: seq<int>): (r: Block)
    requires |list| <= LOGSIZE
  {
    [|list|] + list + b[1 + |list|..]
  }

  /** What bread returns: the pinned copy if the block is dirty, else the disk's. */
  function View(d: Disk, dirty: map<int, Block>, b: int): Block
    requires 0 <= b < |d|
  {
    if b in dirty then dirty[b] else d[b]
  }

  ghost function LogWrites(lay: Layout, d: Disk, list: seq<int>, dirty: map<int, Block>): (r: seq<Write>)
    requires forall i :: 0 <= i < |list| ==> 0 <= list[i] < |d|
    ensures |r| == |list|
  {
    seq(|list|, i requires 0 <= i < |list| => Write(lay.start + i + 1, View(d, dirty, list[i])))
  }

  ghost function InstallWrites(lay: Layout, d: Disk, list: seq<int>): (r: seq<Write>)
    requires lay.Fits(d) && lay.Loggable(list)
    ensures |r| == |list|
  {
    seq(|list|, i requires 0 <= i < |list| => Write(list[i], d[lay.start + i + 1]))
  }

  ghost function HeadWrite(lay: Layout, d: Disk, list: seq<int>): seq<Write>
    requires lay.Fits(d) && |list| <= LOGSIZE
  {
    [Write(lay.start, HeadBlock(d[lay.start], list))]
  }

  /** Every disk write of commit(), in order. */
  ghost function CommitWrites(lay: Layout, d: Disk, list: seq<int>, dirty: map<int, Block>): (r: seq<Write>)
    requires lay.Fits(d) && lay.Loggable(list)
    ensures InRange(r, d)
    ensures |r| == if list == [] then 0 else 2 * |list| + 2
  {
    if list == [] then []
    else
      var a := LogWrites(lay, d, list, dirty);
      var d1 := Apply(d, a);
      var b := HeadWrite(lay, d1, list);
      var d2 := Apply(d1, b);
      var c := InstallWrites(lay, d2, list);
      var d3 := Apply(d2, c);
      a + b + c + HeadWrite(lay, d3, [])
  }

  /** A disk whose header can be recovered from. */
  ghost predicate Recoverable(lay: Layout, d: Disk) {
    lay.Fits(d) && lay.Loggable(HeadList(d[lay.start]))
  }

  /** Every disk write of recover_from_log(), in order. */
  ghost function RecoverWrites(lay: Layout, d: Disk): (r: seq<Write>)
    requires Recoverable(lay, d)
    ensures InRange(r, d)
    ensures |r| == |HeadList(d[lay.start])| + 1
  {
    var a := InstallWrites(lay, d, HeadList(d[lay.start]));
    a + HeadWrite(lay, Apply(d, a), [])
  }

  lemma {:induction false} ApplyConcat(d: Disk, a: seq<Write>, b: seq<Write>)
    requires InRange(a, d) && InRange(b, d)
    ensures InRange(a + b, d)
    ensures Apply(d, a + b) == Apply(Apply(d, a), b)
  {
    if b == [] {
      assert a + b == a;
    } else {
      var k := |b| - 1;
      ApplyConcat(d, a, b[..k]);
      assert (a + b)[..|a + b| - 1] == a + b[..k];
    }
  }

  lemma {:induction false} ApplySnoc(d: Disk, ws: seq<Write>, w: Write)
    requires InRange(ws, d) && w.bno < |d|
    ensures InRange(ws + [w], d)
    ensures Apply(d, ws + [w]) == Apply(d, ws)[w.bno := w.data]
  {
    assert (ws + [w])[..|ws|] == ws;
  }

  lemma {:induction false} PrefixNext<T>(t: seq<T>, ws: seq<T>, k: nat)
    requires k < |ws|
    ensures t + ws[..k + 1] == t + ws[..k] + [ws[k]]
  {
    assert ws[..k + 1] == ws[..k] + [ws[k]];
  }

  lemma {:induction false} HeadNext(n: int, list: seq<int>, b: seq<int>, i: nat)
    requires i < |list| < |b|
    ensures ([n] + list[..i] + b[1 + i..])[1 + i := list[i]] == [n] + list[..i + 1] + b[2 + i..]
  {
  }

  lemma {:induction false} Reassociate<T>(t: seq<T>, a: seq<T>, b: seq<T>, c: seq<T>, e: seq<T>)
    ensures t + a + b + c + e == t + (a + b + c + e)
  {
  }

  function Elems(s: seq<int>): set<int> {
    set x | x in s
  }

  lemma {:induction false} ElemsSnoc(s: seq<int>, k: nat)
    requires k < |s|
    ensures Elems(s[..k + 1]) == Elems(s[..k]) + {s[k]}
  {
    assert s[..k + 1] == s[..k] + [s[k]];
  }

  /** begin_op's admission test. */
  predicate MayBegin(n: nat, outstanding: int, committing: bool) {
    !committing && n + (outstanding + 1) * MAXOPBLOCKS <= LOGSIZE
  }

  /** log_write's two panic tests, read before the lock is taken. */
  predicate WritePanics(lay: Layout, n: nat, outstanding: int) {
    n >= LOGSIZE || n >= lay.size - 1 || outstanding < 1
  }

  /** Log absorption: a block already in the list is not added again. */
  function Absorb(list: seq<int>, b: int): (r: seq<int>)
    ensures b in r && (forall x :: x in r <==> x in list || x == b)
    ensures list <= r && |r| == |list| + if b in list then 0 else 1
  {
    if b in list then list else list + [b]
  }

  /** write_head's copy of the in-memory header over the buffer of the header block. */
  method FillHead(b: Block, n: nat, block: seq<int>) returns (hb: Block)
    requires n <= |block| == LOGSIZE
    ensures hb == HeadBlock(b, block[..n])
  {
    var buf: seq<int> := b[0 := n];
    var i := 0;
    while i < n
      invariant 0 <= i <= n
      invariant buf == [n] + block[..i] + b[1 + i..]
    {
      HeadNext(n, block, b, i);
      buf := buf[1 + i := block[i]];
      i := i + 1;
    }
    hb := buf;
  }

  class Log {
    const lay: Layout
    var n: nat                  // log.lh.n
    var block: seq<int>         // log.lh.block, LOGSIZE entries
    var disk: Disk
    var dirty: map<int, Block>  // the B_DIRTY buffers
    var outstanding: int
    var committing: bool
    ghost const booted: Disk    // the disk at power-on
    ghost var trace: seq<Write> // the disk writes issued since

    constructor (lay: Layout, d: Disk)
      requires Recoverable(lay, d)
      ensures Valid()
      ensures this.lay == lay
      ensures List() == [] && dirty == map[] && outstanding == 0 && !committing
      ensures trace == RecoverWrites(lay, d)
      ensures disk == Apply(d, trace)
    {
      this.lay := lay;
      block := seq(LOGSIZE, _ => 0);
      n := 0;
      disk := d;
      booted := d;
      dirty := map[];
      outstanding := 0;
      committing := false;
      trace := [];
      new;
      RecoverFromLog();
    }

    ghost predicate Valid()
      reads this
    {
      && |block| == LOGSIZE
      && n <= LOGSIZE
      && lay.Fits(booted) && lay.Fits(disk)
      && InRange(trace, booted) && disk == Apply(booted, trace)
    }

    ghost function List(): (r: seq<int>)
      requires Valid()
      reads this
      ensures |r| == n
    {
      block[..n]
    }

    /** bwrite: one block reaches the disk and its buffer becomes clean. */
    method Bwrite(b: nat, data: Block)
      requires Valid() && b < |disk|
      modifies this`disk, this`dirty, this`trace
      ensures Valid() && List() == old(List())
      ensures disk == old(disk)[b := data]
      ensures dirty == old(dirty) - {b}
      ensures trace == old(trace) + [Write(b, data)]
    {
      disk := disk[b := data];
      dirty := dirty - {b};
      trace := trace + [Write(b, data)];
      ApplySnoc(booted, old(trace), Write(b, data));
    }

    method WriteLogBlock(to: nat, data: Block)
      requires Valid() && lay.InLog(to) && to !in dirty
      modifies this`disk, this`dirty, this`trace
      ensures Valid() && List() == old(List()) && dirty == old(dirty)
      ensures |disk| == |old(disk)| && forall b :: lay.Home(b) ==> disk[b] == old(disk)[b]
      ensures trace == old(trace) + [Write(to, data)]
    {
      Bwrite(to, data);
      assert dirty == old(dirty);
    }

    method WriteLog()
      requires Valid() && lay.Loggable(List())
      requires forall b :: b in dirty ==> lay.Home(b)
      modifies this`disk, this`dirty, this`trace
      ensures Valid() && List() == old(List()) && dirty == old(dirty)
      ensures trace == old(trace) + LogWrites(lay, old(disk), List(), dirty)
      ensures InRange(LogWrites(lay, old(disk), List(), dirty), old(disk)) &&
            disk == Apply(old(disk), LogWrites(lay, old(disk), List(), dirty))
    {
      ghost var d0, ws := disk, LogWrites(lay, disk, List(), dirty);
      var tail := 0;
      while tail < n
        invariant 0 <= tail <= n
        invariant Valid() && List() == old(List()) && dirty == old(dirty)
        invariant trace == old(trace) + ws[..tail]
        invariant forall b :: lay.Home(b) ==> disk[b] == d0[b]
      {
        assert lay.Home(List()[tail]);
        var from := View(disk, dirty, block[tail]);
        WriteLogBlock(lay.start + tail + 1, from);
        PrefixNext(old(trace), ws, tail);
        tail := tail + 1;
      }
      assert ws[..n] == ws;
      ApplyConcat(booted, old(trace), ws);
    }

    method WriteHead()
      requires Valid()
      requires lay.start !in dirty
      modifies this`disk, this`dirty, this`trace
      ensures Valid() && List() == old(List()) && dirty == old(dirty)
      ensures trace == old(trace) + HeadWrite(lay, old(disk), List())
      ensures InRange(HeadWrite(lay, old(disk), List()), old(disk)) &&
            disk == Apply(old(disk), HeadWrite(lay, old(disk), List()))
    {
      ghost var d0 := disk;
      var buf := FillHead(disk[lay.start], n, block);
      Bwrite(lay.start, buf);
      ApplyConcat(booted, old(trace), HeadWrite(lay, d0, List()));
      assert dirty == old(dirty);
    }

    method InstallTrans()
      requires Valid() && lay.Loggable(List())
      requires forall b :: b in dirty ==> lay.Home(b)
      modifies this`disk, this`dirty, this`trace
      ensures Valid() && List() == old(List())
      ensures dirty == old(dirty) - Elems(List())
      ensures trace == old(trace) + InstallWrites(lay, old(disk), List())
      ensures InRange(InstallWrites(lay, old(disk), List()), old(disk)) &&
            disk == Apply(old(disk), InstallWrites(lay, old(disk), List()))
    {
      hide Apply;
      ghost var d0, ws, list := disk, InstallWrites(lay, disk, List()), List();
      var tail := 0;
      while tail < n
        invariant 0 <= tail <= n
        invariant Valid() && List() == list == old(List())
        invariant dirty == old(dirty) - Elems(list[..tail])
        invariant trace == old(trace) + ws[..tail]
        invariant forall b :: lay.InLog(b) ==> disk[b] == d0[b]
      {
        assert lay.Home(list[tail]);
        var lbuf := View(disk, dirty, lay.start + tail + 1);
        Bwrite(block[tail], lbuf);
        ElemsSnoc(list, tail);
        PrefixNext(old(trace), ws, tail);
        tail := tail + 1;
      }
      assert ws[..n] == ws && list[..n] == list;
      ApplyConcat(booted, old(trace), ws);
    }

    method ReadHead()
      requires Valid() && Recoverable(lay, disk) && dirty == map[]
      modifies this`n, this`block
      ensures Valid() && List() == HeadList(disk[lay.start])
    {
      var buf := View(disk, dirty, lay.start);
      n := if 0 <= buf[0] < WORDS then buf[0] else 0;
      var i := 0;
      while i < n
        invariant 0 <= i <= n == |HeadList(buf)| <= |block| == LOGSIZE
        invariant forall j :: 0 <= j < i ==> block[j] == buf[1 + j]
      {
        block := block[i := buf[1 + i]];
        i := i + 1;
      }
    }

    method RecoverFromLog()
      requires Valid() && Recoverable(lay, disk) && dirty == map[]
      modifies this`n, this`disk, this`dirty, this`trace, this`block
      ensures Valid() && List() == [] && dirty == map[]
      ensures trace == old(trace) + RecoverWrites(lay, old(disk))
      ensures disk == Apply(old(disk), RecoverWrites(lay, old(disk)))
    {
      ghost var d0 := disk;
      ReadHead();
      ghost var a := InstallWrites(lay, d0, List());
      InstallTrans();
      n := 0;
      WriteHead();
      ghost var ws := RecoverWrites(lay, d0);
      assert trace == old(trace) + ws;
      ApplyConcat(booted, old(trace), ws);
    }

    method Commit()
      requires Valid() && lay.Loggable(List())
      requires dirty.Keys == Elems(List())
      modifies this`n, this`disk, this`dirty, this`trace
      ensures Valid() && List() == [] && dirty == map[]
      ensures trace == old(trace) + CommitWrites(lay, old(disk), old(List()), old(dirty))
      ensures disk == Apply(old(disk), CommitWrites(lay, old(disk), old(List()), old(dirty)))
    {
      ghost var d0, t0, list := disk, trace, List();
      ghost var ws := CommitWrites(lay, disk, list, dirty);
      if n > 0 {
        ghost var a := LogWrites(lay, d0, list, dirty);
        WriteLog();
        ghost var b := HeadWrite(lay, disk, list);
        WriteHead();
        ghost var c := InstallWrites(lay, disk, list);
        InstallTrans();
        assert dirty == map[];
        n := 0;
        ghost var e := HeadWrite(lay, disk, []);
        WriteHead();
        Reassociate(t0, a, b, c, e);
      }
      assert trace == t0 + ws;
      ApplyConcat(booted, t0, ws);
    }

    /** One pass of begin_op's loop; `ok` is false where the source sleeps. */
    method BeginOp() returns (ok: bool)
      requires Valid()
      modifies this`outstanding
      ensures Valid()
      ensures ok == MayBegin(n, old(outstanding), committing)
      ensures outstanding == old(outstanding) + (if ok then 1 else 0)
    {
      if committing {
        ok := false;
      } else if n + (outstanding + 1) * MAXOPBLOCKS > LOGSIZE {
        ok := false;
      } else {
        outstanding := outstanding + 1;
        ok := true;
      }
    }

    /** log_write of a buffer the caller has filled with `data`; `ok` is false where it panics. */
    method LogWrite(b: int, data: Block) returns (ok: bool)
      requires Valid() && lay.Home(b)
      modifies this`n, this`dirty, this`block
      ensures Valid()
      ensures ok == !WritePanics(lay, old(n), outstanding)
      ensures ok ==> List() == Absorb(old(List()), b) && dirty == old(dirty)[b := data]
      ensures !ok ==> List() == old(List()) && dirty == old(dirty)
    {
      if n >= LOGSIZE || n >= lay.size - 1 {
        return false;
      }
      if outstanding < 1 {
        return false;
      }
      ghost var list := List();
      var i := 0;
      while i < n && block[i] != b
        invariant 0 <= i <= n
        invariant b !in list[..i]
      {
        i := i + 1;
      }
      assert i < n ==> b == list[i];
      assert i == n ==> list[..i] == list;
      block := block[i := b];
      if i == n {
        n := n + 1;
      }
      dirty := dirty[b := data];
      ok := true;
    }

    /** end_op, with the commit it may run; `ok` is false where it panics. */
    method EndOp() returns (ok: bool)
      requires Valid() && lay.Loggable(List())
      requires dirty.Keys == Elems(List())
      modifies this
      ensures Valid()
      ensures ok == !old(committing)
      ensures outstanding == old(outstanding) - 1
      ensures ok ==> !committing
      ensures ok && outstanding == 0 ==>
                && List() == [] && dirty == map[]
                && trace == old(trace) + CommitWrites(lay, old(disk), old(List()), old(dirty))
                && disk == Apply(old(disk), CommitWrites(lay, old(disk), old(List()), old(dirty)))
      ensures !(ok && outstanding == 0) ==>
                List() == old(List()) && dirty == old(dirty) && trace == old(trace) && disk == old(disk)
    {
      var last;
      ok, last := EndFirst();
      if last {
        Commit();
        EndLast();
      }
    }

    /** The first critical section of end_op; `last` says that this operation is to commit. */
    method EndFirst() returns (ok: bool, last: bool)
      requires Valid()
      modifies this`outstanding, this`committing
      ensures Valid() && outstanding == old(outstanding) - 1
      ensures ok == !old(committing) && last == (ok && outstanding == 0) && committing == (old(committing) || last)
    {
      outstanding := outstanding - 1;
      if committing {
        return false, false;
      }
      last := outstanding == 0;
      if last {
        committing := true;
      }
      ok := true;
    }

    /** The second one, after the commit. */
    method EndLast()
      requires Valid()
      modifies this`committing
      ensures Valid() && !committing
    {
      committing := false;
    }
  }
}
