/** Runs of the file system: a freshly made one satisfies the invariant, and over every
    interleaving of writes and truncations of different files, block by block, each file shows
    only what was done to it. */
module FsRuns {
  import opened FsBlocks
  import opened FsState
  import opened FsFile

  // ---- A fresh file system ----

  /** A zeroed disk with the first n blocks marked in use. */
  ghost function FreshDisk(g: Geometry, n: nat): (d: seq<Block>)
    requires g.Ok() && n <= g.size
    ensures |d| == g.size
  {
    if n == 0 then seq(g.size, _ => Zeroes()) else MarkBit(g, FreshDisk(g, n - 1), n - 1)
  }

  lemma {:induction false} ZeroBits(k: nat)
    ensures !Bit(0, k)
  {
    if k > 0 { ZeroBits(k - 1); }
  }

  lemma {:induction false} FreshBits(g: Geometry, n: nat, b: nat)
    requires g.Ok() && n <= g.size && b < g.size
    ensures BitAt(g, FreshDisk(g, n), b) <==> b < n
  {
    if n == 0 {
      MapFits(g, b);
      ZeroBits(b % 8);
    } else {
      FreshBits(g, n - 1, b);
      OneBit(g, FreshDisk(g, n - 1), n - 1, b);
    }
  }

  const EMPTY_INODE := Inode(0, seq(NDIRECT + 1, _ => 0))

  lemma {:induction false} FreshLow(g: Geometry, n: nat, b: nat)
    requires g.Ok() && n <= g.size && b < g.bmapstart
    ensures FreshDisk(g, n)[b] == Zeroes()
  {
    if n > 0 {
      FreshLow(g, n - 1, b);
      MapFits(g, n - 1);
    }
  }

  lemma {:induction false} FreshDinode(i: nat)
    ensures DinodeIn(Zeroes(), i) == EMPTY_INODE
  {
    hide WordAt, Zeroes, DinodeWord;
    forall k | 2 <= k < DWORDS ensures WordAt(Zeroes(), DinodeWord(i, k)) == 0 { WordZero(DinodeWord(i, k)); }
    assert DinodeIn(Zeroes(), i).addrs == EMPTY_INODE.addrs;
  }

  /** With every metadata block marked and only empty inodes, in memory and on disk, the invariant
      holds. */
  lemma {:induction false} FreshInv(g: Geometry, k: nat)
    requires g.Ok()
    ensures Inv(g, St(FreshDisk(g, g.datastart), seq(k, _ => EMPTY_INODE)), map[])
    ensures k <= (g.bmapstart - g.inodestart) * IPB ==>
              Encodes(g, FreshDisk(g, g.datastart), seq(k, _ => EMPTY_INODE))
  {
    hide BitAt, FreshDisk, DinodeIn, Zeroes;
    forall i | 0 <= i < k && k <= (g.bmapstart - g.inodestart) * IPB
      ensures InodeBlock(g, i) < g.size && DinodeIn(FreshDisk(g, g.datastart)[InodeBlock(g, i)], i) == EMPTY_INODE
    {
      InodeBlockFits(g, i);
      FreshLow(g, g.datastart, InodeBlock(g, i));
      FreshDinode(i);
    }
    var s := St(FreshDisk(g, g.datastart), seq(k, _ => EMPTY_INODE));
    forall b | 0 <= b < g.size ensures BitAt(g, s.disk, b) <==> b < g.datastart { FreshBits(g, g.datastart, b); }
  }

  // ---- Interleaved calls ----

  /** What a process does to the inode it has locked: a piece of a write that lies within one
      block, the end of a write, or a truncation. */
  datatype Step =
    | Piece(i: nat, off: nat, p: seq<Byte>)
    | Finish(i: nat, n: nat, off: nat)
    | Truncate(i: nat)

  /** What inode i has come to: its size, and the bytes allocated so far. */
  datatype View = View(size: nat, c: seq<Byte>)

  predicate Enabled(v: View, a: Step) {
    match a
    case Piece(_, off, p) => off <= |v.c| && |p| > 0 && off % BSIZE + |p| <= BSIZE && off + |p| <= MAXBYTES
    case Finish(_, _, off) => off <= |v.c|
    case Truncate(_) => true
  }

  function Do(v: View, a: Step): View
    requires Enabled(v, a)
  {
    match a
    case Piece(_, off, p) => v.(c := Overwrite(v.c, off, p))
    case Finish(_, n, off) => v.(size := if n > 0 && off > v.size then off else v.size)
    case Truncate(_) => View(0, [])
  }

  /** The steps of a run that concern inode i. */
  function Own(run: seq<Step>, i: nat): seq<Step> {
    if run == [] then [] else (if run[0].i == i then [run[0]] else []) + Own(run[1..], i)
  }

  predicate CanRun(v: View, run: seq<Step>)
    decreases |run|
  {
    run == [] || (Enabled(v, run[0]) && CanRun(Do(v, run[0]), run[1..]))
  }

  function After(v: View, run: seq<Step>): View
    requires CanRun(v, run)
    decreases |run|
  {
    if run == [] then v else After(Do(v, run[0]), run[1..])
  }

  /** The views describe the file system. */
  ghost predicate Shows(fs: FileSystem, views: seq<View>)
    reads fs
  {
    && fs.Valid() && |views| == |fs.inodes|
    && forall i :: 0 <= i < |views| ==> Showing(fs, i, views[i])
  }

  ghost predicate Showing(fs: FileSystem, i: nat, v: View)
    requires fs.Valid() && i < |fs.inodes|
    reads fs
  {
    fs.inodes[i].size == v.size && FileIs(fs.g, fs.S(), i, |v.c|, v.c)
  }

  method Take(fs: FileSystem, a: Step, ghost views: seq<View>) returns (ok: bool)
    requires Shows(fs, views) && a.i < |views| && Enabled(views[a.i], a)
    modifies fs
    ensures !ok ==> fs.Valid() && Full(fs.g, fs.disk)
    ensures ok ==> Shows(fs, views[a.i := Do(views[a.i], a)])
  {
    hide Inv, FileIs, Overwrite, OnDisk, Wrote, Framed, OthersKept;
    ghost var v, s := views[a.i], fs.S();
    ValidShape(fs);
    ok := true;
    match a {
      case Piece(i, off, p) =>
        var addr;
        ghost var maps;
        ok, addr, maps := fs.WritePiece(i, off, p, |v.c|, v.c);
      case Finish(i, n, off) =>
        fs.FinishWritei(i, n, off, |v.c|, v.c);
      case Truncate(i) =>
        ok := fs.Itrunc(i);
    }
    if ok {
      ValidShape(fs);
      OthersShow(fs.g, s, fs.S(), a.i, views);
    }
  }

  lemma {:induction false} ValidShape(fs: FileSystem)
    requires fs.Valid()
    ensures Shape(fs.g, fs.S())
  {
  }

  lemma {:induction false} OthersShow(g: Geometry, s: St, t: St, i: nat, views: seq<View>)
    requires Shape(g, s) && Shape(g, t) && OthersKept(g, s, t, i) && |views| == |s.inodes|
    requires forall j :: 0 <= j < |views| ==>
               s.inodes[j].size == views[j].size && FileIs(g, s, j, |views[j].c|, views[j].c)
    ensures |t.inodes| == |views|
    ensures forall j :: 0 <= j < |views| && j != i ==>
              t.inodes[j].size == views[j].size && FileIs(g, t, j, |views[j].c|, views[j].c)
  {
    hide Shape, FileIs;
  }

  lemma {:induction false} OwnNext(run: seq<Step>, k: nat, i: nat)
    requires k < |run|
    ensures Own(run[k..], i) == if i == run[k].i then [run[k]] + Own(run[k + 1..], i) else Own(run[k + 1..], i)
  {
    assert run[k..][1..] == run[k + 1..];
  }

  lemma {:induction false} RunNext(v: View, a: Step, rest: seq<Step>)
    ensures CanRun(v, [a] + rest) <==> Enabled(v, a) && CanRun(Do(v, a), rest)
    ensures CanRun(v, [a] + rest) ==> After(v, [a] + rest) == After(Do(v, a), rest)
  {
    assert ([a] + rest)[1..] == rest;
  }

  /** Isolation.  Whatever steps processes take on the files in whatever order, each file ends as
      its own steps alone make it; the run stops early only on a full disk. */
  method Run(fs: FileSystem, run: seq<Step>, ghost views: seq<View>) returns (ok: bool)
    requires Shows(fs, views)
    requires forall k :: 0 <= k < |run| ==> run[k].i < |views|
    requires forall i :: 0 <= i < |views| ==> CanRun(views[i], Own(run, i))
    modifies fs
    ensures !ok ==> fs.Valid() && Full(fs.g, fs.disk)
    ensures ok ==> fs.Valid() && |fs.inodes| == |views|
    ensures ok ==> forall i :: 0 <= i < |views| ==> Showing(fs, i, After(views[i], Own(run, i)))
  {
    hide Inv, FileIs, Do, Enabled, Own, CanRun, After;
    ok := true;
    ghost var now := views;
    assert run[0..] == run;
    var k := 0;
    while k < |run|
      invariant 0 <= k <= |run| && ok && Shows(fs, now) && |now| == |views|
      invariant forall i :: 0 <= i < |views| ==>
        CanRun(now[i], Own(run[k..], i)) && After(now[i], Own(run[k..], i)) == After(views[i], Own(run, i))
    {
      var a := run[k];
      forall i | 0 <= i < |views|
        ensures Own(run[k..], i) == if i == a.i then [a] + Own(run[k + 1..], i) else Own(run[k + 1..], i) {
        OwnNext(run, k, i);
      }
      RunNext(now[a.i], a, Own(run[k + 1..], a.i));
      ok := Take(fs, a, now);
      if !ok {
        return;
      }
      now := now[a.i := Do(now[a.i], a)];
      k := k + 1;
    }
    forall i | 0 <= i < |views| ensures now[i] == After(views[i], Own(run, i)) {
      NoneLeft(now[i], run[k..], i);
    }
  }

  lemma {:induction false} NoneLeft(v: View, run: seq<Step>, i: nat)
    requires run == []
    ensures CanRun(v, Own(run, i)) && After(v, Own(run, i)) == v
  {
  }
}
