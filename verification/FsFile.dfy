/** balloc, bfree, bmap, itrunc, readi and writei of kernel/fs.c and the chunked filewrite of
    kernel/file.c, on the current contents of the disk blocks (the buffer cache's view).

    The invariant of module FsState holds between calls.  A method that returns ok == false
    stands for the kernel panicking inside it. */
module FsFile {
  import opened Common
  import opened FsBlocks
  import opened FsState

  const CHUNK: nat := (MAXOPBLOCKS - 1 - 1 - 2) / 2 * 512   // filewrite's max

  /** c with the bytes from off on replaced by p, extended if p reaches past the end. */
  function Overwrite(c: seq<Byte>, off: nat, p: seq<Byte>): (r: seq<Byte>)
    requires off <= |c|
    ensures |r| == if off + |p| > |c| then off + |p| else |c|
  {
    c[..off] + p + if off + |p| < |c| then c[off + |p|..] else []
  }

  lemma {:induction false} OverwriteNext(c: seq<Byte>, off: nat, p: seq<Byte>, k: nat, m: nat)
    requires off <= |c| && k + m <= |p|
    ensures Overwrite(Overwrite(c, off, p[..k]), off + k, p[k..k + m]) == Overwrite(c, off, p[..k + m])
  {
    assert p[..k + m] == p[..k] + p[k..k + m];
  }

  lemma {:induction false} OverwriteNone(c: seq<Byte>, off: nat, p: seq<Byte>)
    requires off <= |c|
    ensures Overwrite(c, off, p[..0]) == c
  {
  }

  /** The first len bytes of file i are allocated and read as c. */
  ghost predicate FileIs(g: Geometry, s: St, i: nat, len: nat, c: seq<Byte>)
    requires Shape(g, s) && i < |s.inodes|
  {
    && |c| == len <= MAXBYTES && Filled(g, s, i, len)
    && forall x :: 0 <= x < len ==> ByteAt(g, s, i, x) == c[x]
  }

  lemma {:induction false} ContentsAre(g: Geometry, s: St, own: Owners, i: nat)
    requires Inv(g, s, own) && i < |s.inodes|
    ensures FileIs(g, s, i, s.inodes[i].size, Contents(g, s, own, i))
    ensures forall c :: FileIs(g, s, i, s.inodes[i].size, c) ==> Contents(g, s, own, i) == c
  {
    hide Owned, Mapped, Filled, ByteAt;
    SizedOf(g, s, i);
  }

  lemma {:induction false} SizedOf(g: Geometry, s: St, i: nat)
    requires Shape(g, s) && Sized(g, s) && i < |s.inodes|
    ensures s.inodes[i].size <= MAXBYTES && Filled(g, s, i, s.inodes[i].size)
  {
  }

  /** Where byte x of a file is on disk: in the block that the inode names for the first 12 blocks, and
      that the block with the number addrs[12] names for the others. */
  lemma {:induction false} FileOnDisk(g: Geometry, s: St, own: Owners, i: nat, x: nat)
    requires Inv(g, s, own) && i < |s.inodes| && x < s.inodes[i].size
    ensures x / 512 < 140 && |s.inodes[i].addrs| == 13
    ensures x / 512 >= 12 ==> 0 < s.inodes[i].addrs[12] < |s.disk|
    ensures var a := s.inodes[i].addrs;
            var b := if x / 512 < 12 then a[x / 512] else WordAt(s.disk[a[12]], x / 512 - 12);
            0 < b < |s.disk| && Contents(g, s, own, i)[x] == s.disk[b][x % 512]
  {
    hide Owned, Mapped, Filled;
    SizedOf(g, s, i);
    ByteBlock(g, s, own, i, s.inodes[i].size, x);
  }

  /** t refers to all the blocks s does, with the same data, and may have new ones in inode i. */
  ghost predicate Extends(g: Geometry, s: St, t: St, own: Owners, own2: Owners, i: nat)
    requires Shape(g, s) && Shape(g, t)
  {
    && |t.inodes| == |s.inodes|
    && (forall j :: 0 <= j < |s.inodes| ==>
          t.inodes[j].size == s.inodes[j].size && (j != i ==> t.inodes[j] == s.inodes[j]))
    && (forall j, k :: 0 <= j < |s.inodes| && 0 <= k < SLOTS && Ref(g, s, j, k) != 0 ==>
          Ref(g, t, j, k) == Ref(g, s, j, k))
    && (forall b :: b in own ==> b in own2 && own2[b] == own[b])
    && (forall b :: b in own && own[b].1 != NDIRECT ==> b < g.size && t.disk[b] == s.disk[b])
    && (forall j, limit :: 0 <= j < |s.inodes| && 0 <= limit && Filled(g, s, j, limit) ==> Filled(g, t, j, limit))
  }

  lemma {:induction false} BlockIndex(x: nat)
    requires x < MAXBYTES
    ensures x / BSIZE < MAXFILE && x / BSIZE * BSIZE <= x
  {
  }

  /** The block that holds byte x of a file whose first len bytes are allocated. */
  lemma {:induction false} ByteBlock(g: Geometry, s: St, own: Owners, i: nat, len: nat, x: nat)
    requires Shape(g, s) && Owned(g, s, own) && i < |s.inodes| && Filled(g, s, i, len) && x < len <= MAXBYTES
    ensures x / BSIZE < MAXFILE
    ensures var b := Ref(g, s, i, SlotOf(x / BSIZE));
            b != 0 && b in own && own[b] == (i, SlotOf(x / BSIZE)) && g.datastart <= b < g.size
            && ByteAt(g, s, i, x) == s.disk[b][x % BSIZE]
  {
    hide Ref;
    BlockIndex(x);
    assert Ref(g, s, i, SlotOf(x / BSIZE)) != 0;
  }

  lemma {:induction false} ExtendsKeepsFile(g: Geometry, s: St, t: St, own: Owners, own2: Owners, i: nat, j: nat,
        len: nat, c: seq<Byte>)
    requires Shape(g, s) && Shape(g, t) && Owned(g, s, own) && Owned(g, t, own2) && Extends(g, s, t, own, own2, i)
    requires j < |s.inodes| && FileIs(g, s, j, len, c)
    ensures FileIs(g, t, j, len, c)
  {
    hide Owned, Ref, Filled, ByteAt, Shape;
    forall x | 0 <= x < len ensures ByteAt(g, t, j, x) == c[x] {
      ByteBlock(g, s, own, j, len, x);
      ByteBlock(g, t, own2, j, len, x);
    }
  }

  /** memmove into a block. */
  function Splice(b: Block, o: nat, p: seq<Byte>): Block
    requires o + |p| <= BSIZE
  {
    b[..o] + p + b[o + |p|..]
  }

  lemma {:induction false} InBlock(off: nat, m: nat, x: nat)
    requires off % BSIZE + m <= BSIZE
    ensures off <= x < off + m ==> x / BSIZE == off / BSIZE && x % BSIZE == off % BSIZE + (x - off)
    ensures x / BSIZE == off / BSIZE && !(off <= x < off + m) ==>
              x % BSIZE < off % BSIZE || x % BSIZE >= off % BSIZE + m
    ensures x / BSIZE == off / BSIZE && x < off ==> x % BSIZE < off % BSIZE
  {
  }

  /** The byte a file shows after a write inside one of its blocks. */
  lemma {:induction false} WrittenByte(g: Geometry, s: St, t: St, own: Owners, i: nat, j: nat, len: nat, off: nat,
        p: seq<Byte>, x: nat)
    requires Shape(g, s) && Shape(g, t) && Owned(g, s, own) && Owned(g, t, own)
    requires i < |s.inodes| && j < |s.inodes| == |t.inodes|
    requires forall a, k :: 0 <= a < |s.inodes| && 0 <= k < SLOTS ==> Ref(g, t, a, k) == Ref(g, s, a, k)
    requires off % BSIZE + |p| <= BSIZE && off < MAXBYTES
    requires var b := Ref(g, s, i, (BlockIndex(off); SlotOf(off / BSIZE)));
             b != 0 && b in own && own[b] == (i, SlotOf(off / BSIZE)) && b < g.size
             && t.disk == s.disk[b := Splice(s.disk[b], off % BSIZE, p)]
    requires Filled(g, s, j, len) && Filled(g, t, j, len) && x < len <= MAXBYTES
    ensures ByteAt(g, t, j, x) == if j == i && off <= x < off + |p| then p[x - off] else ByteAt(g, s, j, x)
  {
    hide Owned, Ref, Filled, ByteAt;
    BlockIndex(off);
    ByteBlock(g, s, own, j, len, x);
    ByteBlock(g, t, own, j, len, x);
    InBlock(off, |p|, x);
    var b, c := Ref(g, s, i, SlotOf(off / BSIZE)), Ref(g, s, j, SlotOf(x / BSIZE));
    assert Ref(g, t, j, SlotOf(x / BSIZE)) == c;
    assert c == b <==> j == i && x / BSIZE == off / BSIZE;
  }

  ghost predicate SameRefsAs(g: Geometry, s: St, t: St)
    requires Shape(g, s) && Shape(g, t)
  {
    t.inodes == s.inodes && forall a, k :: 0 <= a < |s.inodes| && 0 <= k < SLOTS ==> Ref(g, t, a, k) == Ref(g, s, a, k)
  }

  /** One round of writei's loop: the bytes p at offset off, inside one allocated block. */
  lemma {:induction false} WriteStep(g: Geometry, s: St, own: Owners, i: nat, len: nat, c: seq<Byte>, off: nat,
        p: seq<Byte>)
    requires Inv(g, s, own) && i < |s.inodes| && FileIs(g, s, i, len, c) && off <= len
    requires |p| > 0 && off % BSIZE + |p| <= BSIZE && off + |p| <= MAXBYTES
    requires off / BSIZE < MAXFILE && Ref(g, s, i, SlotOf(off / BSIZE)) != 0
    ensures var b := Ref(g, s, i, SlotOf(off / BSIZE));
            && b in own && own[b] == (i, SlotOf(off / BSIZE)) && b < g.size
            && var t := s.(disk := s.disk[b := Splice(s.disk[b], off % BSIZE, p)]);
               && Inv(g, t, own) && SameRefsAs(g, s, t)
               && FileIs(g, t, i, if off + |p| > len then off + |p| else len, Overwrite(c, off, p))
               && forall j, l, d :: 0 <= j < |s.inodes| && 0 <= l && j != i && FileIs(g, s, j, l, d) ==>
                     FileIs(g, t, j, l, d)
  {
    hide Owned, Ref, Filled, ByteAt, Mapped, Sized, Shape;
    var b := Ref(g, s, i, SlotOf(off / BSIZE));
    RefOwned(g, s, own, i, SlotOf(off / BSIZE));
    var t := s.(disk := s.disk[b := Splice(s.disk[b], off % BSIZE, p)]);
    OverwriteData(g, s, own, b, Splice(s.disk[b], off % BSIZE, p));
    var len2, c2 := if off + |p| > len then off + |p| else len, Overwrite(c, off, p);
    FilledFurther(g, s, i, len, off, |p|);
    forall x | 0 <= x < len2 ensures ByteAt(g, t, i, x) == c2[x] {
      WrittenByte(g, s, t, own, i, i, len2, off, p, x);
    }
    forall j, l, d | 0 <= j < |s.inodes| && 0 <= l && j != i && FileIs(g, s, j, l, d) ensures FileIs(g, t, j, l, d) {
      forall x | 0 <= x < l ensures ByteAt(g, t, j, x) == d[x] {
        WrittenByte(g, s, t, own, i, j, l, off, p, x);
      }
    }
  }

  lemma {:induction false} RefOwned(g: Geometry, s: St, own: Owners, i: nat, k: nat)
    requires Shape(g, s) && Owned(g, s, own) && i < |s.inodes| && k < SLOTS && Ref(g, s, i, k) != 0
    ensures var b := Ref(g, s, i, k);
            b in own && own[b] == (i, k) && g.datastart <= b < g.size && |s.disk| == g.size
  {
    hide Ref;
  }

  lemma {:induction false} FilledFurther(g: Geometry, s: St, i: nat, len: nat, off: nat, m: nat)
    requires Shape(g, s) && i < |s.inodes| && Filled(g, s, i, len) && off <= len
    requires m > 0 && off % BSIZE + m <= BSIZE && off + m <= MAXBYTES
    requires off / BSIZE < MAXFILE && Ref(g, s, i, SlotOf(off / BSIZE)) != 0
    ensures Filled(g, s, i, if off + m > len then off + m else len)
  {
    hide Ref, Shape;
    forall bn | 0 <= bn < MAXFILE && bn * BSIZE < off + m && len <= bn * BSIZE ensures bn == off / BSIZE { }
  }

  /** Bit bi of the free-map block that starts at block b. */
  lemma {:induction false} MapIndex(g: Geometry, b: nat, bi: nat)
    requires b % BPB == 0 && bi < BPB
    ensures g.MapBlock(b + bi) == g.MapBlock(b) && (b + bi) % BPB == bi && (b + bi) % 8 == bi % 8
  {
    var q := b / BPB;
    assert b == BPB * q && b + bi == BPB * q + bi;
    assert b + bi == 8 * (BSIZE * q) + bi;
  }

  /** A block attached where there was none, with the data of all owned data blocks untouched. */
  lemma {:induction false} AddRefExtends(g: Geometry, s: St, t: St, own: Owners, i: nat, k: nat, b: nat)
    requires Shape(g, s) && Shape(g, t) && Owned(g, s, own) && i < |s.inodes| && k < SLOTS && b !in own
    requires AddsRef(g, s, t, i, k, b) && Ref(g, s, i, k) == 0
    requires forall j :: 0 <= j < |s.inodes| && j != i ==> t.inodes[j] == s.inodes[j]
    requires forall c :: c in own && own[c].1 != NDIRECT ==> c < g.size && t.disk[c] == s.disk[c]
    requires forall j, limit :: 0 <= j < |s.inodes| && 0 <= limit && Filled(g, s, j, limit) ==> Filled(g, t, j, limit)
    ensures Extends(g, s, t, own, own[b := (i, k)], i)
  {
    hide Owned, Ref, Filled, Shape;
  }

  /** balloc followed by the store into ip->addrs[k]. */
  lemma {:induction false} NewDirect(g: Geometry, s: St, own: Owners, i: nat, k: nat, b: nat)
    requires Inv(g, s, own) && i < |s.inodes| && k <= NDIRECT && s.inodes[i].addrs[k] == 0
    requires b < g.size && !BitAt(g, s.disk, b)
    ensures b != 0 && b >= g.datastart
    ensures var t := St(MarkBit(g, s.disk, b)[b := Zeroes()],
                        s.inodes[i := s.inodes[i].(addrs := s.inodes[i].addrs[k := b])]);
            && Inv(g, t, own[b := (i, k)]) && Extends(g, s, t, own, own[b := (i, k)], i)
            && AddsRef(g, s, t, i, k, b)
  {
    hide Owned, Filled, MarkBit, Mapped, Sized, BitAt;
    var s1 := s.(disk := MarkBit(g, s.disk, b)[b := Zeroes()]);
    AllocBlock(g, s, own, b);
    OwnersInData(g, s, own);
    assert Ref(g, s, i, k) == 0;
    hide Ref;
    AttachDirect(g, s1, own, i, k, b);
    var t := s1.(inodes := s1.inodes[i := s1.inodes[i].(addrs := s1.inodes[i].addrs[k := b])]);
    AddRefExtends(g, s, t, own, i, k, b);
  }

  /** balloc followed by the store into the indirect block. */
  lemma {:induction false} NewEntry(g: Geometry, s: St, own: Owners, i: nat, k: nat, b: nat)
    requires Inv(g, s, own) && i < |s.inodes| && NDIRECT < k < SLOTS
    requires s.inodes[i].addrs[NDIRECT] != 0 && Ref(g, s, i, k) == 0
    requires b < g.size && !BitAt(g, s.disk, b)
    ensures b != 0 && b >= g.datastart
    ensures var ind := s.inodes[i].addrs[NDIRECT];
            var d1 := MarkBit(g, s.disk, b)[b := Zeroes()];
            var t := s.(disk := d1[ind := PutWord(d1[ind], k - NDIRECT - 1, b)]);
            && d1[ind] == s.disk[ind]
            && Inv(g, t, own[b := (i, k)]) && Extends(g, s, t, own, own[b := (i, k)], i)
            && AddsRef(g, s, t, i, k, b)
  {
    hide Owned, Filled, MarkBit, Mapped, Sized, BitAt, Ref, PutWord, Extends;
    var ind := s.inodes[i].addrs[NDIRECT];
    var s1 := s.(disk := MarkBit(g, s.disk, b)[b := Zeroes()]);
    AllocBlock(g, s, own, b);
    OwnersInData(g, s, own);
    IndirectOwned(g, s, own, i);
    AttachEntry(g, s1, own, i, k, b);
    var t := s1.(disk := s1.disk[ind := PutWord(s1.disk[ind], k - NDIRECT - 1, b)]);
    AddRefExtends(g, s, t, own, i, k, b);
  }

  lemma {:induction false} ExtendsSelf(g: Geometry, s: St, own: Owners, i: nat)
    requires Shape(g, s) && Owned(g, s, own)
    ensures Extends(g, s, s, own, own, i)
  {
    hide Ref, Filled;
    OwnersInData(g, s, own);
  }

  lemma {:induction false} ExtendsTrans(g: Geometry, s: St, t: St, u: St, own: Owners, own2: Owners, own3: Owners,
        i: nat)
    requires Shape(g, s) && Shape(g, t) && Shape(g, u)
    requires Extends(g, s, t, own, own2, i) && Extends(g, t, u, own2, own3, i)
    ensures Extends(g, s, u, own, own3, i)
  {
    hide Ref, Filled, Shape;
  }

  /** The indirect block of an inode, if it has one. */
  function Indirect(ip: Inode): set<nat>
    requires |ip.addrs| == NDIRECT + 1
  {
    if ip.addrs[NDIRECT] == 0 then {} else {ip.addrs[NDIRECT]}
  }

  /** balloc's update of the map block is MarkBit. */
  lemma {:induction false} MarkAt(g: Geometry, d: seq<Block>, b: nat, bi: nat)
    requires g.Ok() && |d| == g.size && b % BPB == 0 && bi < BPB && b + bi < g.size
    ensures g.MapBlock(b) == g.MapBlock(b + bi) < g.size
    ensures var bp := d[g.MapBlock(b)];
            && SetBit(bp[bi / 8], bi % 8) < 256
            && MarkBit(g, d, b + bi) == d[g.MapBlock(b) := bp[bi / 8 := SetBit(bp[bi / 8], bi % 8)]]
  {
    hide SetBit;
    MapIndex(g, b, bi);
    MapFits(g, b + bi);
    ByteFits(d[g.MapBlock(b)][bi / 8], bi % 8);
  }

  /** Files other than i read the same in t as in s. */
  ghost predicate OthersKept(g: Geometry, s: St, t: St, i: nat)
    requires Shape(g, s) && Shape(g, t)
  {
    && |t.inodes| == |s.inodes|
    && (forall j :: 0 <= j < |s.inodes| && j != i ==> t.inodes[j] == s.inodes[j])
    && (forall j, len, c :: 0 <= j < |s.inodes| && j != i && 0 <= len && FileIs(g, s, j, len, c) ==>
          FileIs(g, t, j, len, c))
  }

  lemma {:induction false} OthersSelf(g: Geometry, s: St, i: nat)
    requires Shape(g, s)
    ensures OthersKept(g, s, s, i)
  {
  }

  lemma {:induction false} OthersTrans(g: Geometry, s: St, t: St, u: St, i: nat)
    requires Shape(g, s) && Shape(g, t) && Shape(g, u) && OthersKept(g, s, t, i) && OthersKept(g, t, u, i)
    ensures OthersKept(g, s, u, i)
  {
    hide FileIs, Shape;
  }

  lemma {:induction false} ExtendsKeepsOthers(g: Geometry, s: St, t: St, own: Owners, own2: Owners, i: nat)
    requires Shape(g, s) && Shape(g, t) && Owned(g, s, own) && Owned(g, t, own2) && Extends(g, s, t, own, own2, i)
    ensures OthersKept(g, s, t, i)
  {
    hide FileIs, Shape, Owned, Ref;
    forall j, len, c | 0 <= j < |s.inodes| && j != i && 0 <= len && FileIs(g, s, j, len, c)
      ensures FileIs(g, t, j, len, c) {
      ExtendsKeepsFile(g, s, t, own, own2, i, j, len, c);
    }
  }

  lemma {:induction false} OthersContents(g: Geometry, s: St, t: St, own: Owners, own2: Owners, i: nat, j: nat)
    requires Inv(g, s, own) && Inv(g, t, own2) && OthersKept(g, s, t, i) && j < |s.inodes| && j != i
    ensures Contents(g, t, own2, j) == Contents(g, s, own, j)
  {
    hide FileIs, Owned, Mapped, Sized, Contents;
    ContentsAre(g, s, own, j);
    ContentsAre(g, t, own2, j);
  }

  /** The bytes of one block as part of the file. */
  lemma {:induction false} ReadPiece(g: Geometry, s: St, own: Owners, i: nat, off: nat, m: nat)
    requires Inv(g, s, own) && i < |s.inodes| && m > 0
    requires off % BSIZE + m <= BSIZE && off + m <= s.inodes[i].size
    ensures off / BSIZE < MAXFILE
    ensures var b := Ref(g, s, i, SlotOf(off / BSIZE));
            && 0 < b < g.size
            && Contents(g, s, own, i)[off..off + m] == s.disk[b][off % BSIZE..off % BSIZE + m]
  {
    hide Owned, Mapped, Ref, Filled, ByteAt;
    SizedOf(g, s, i);
    ByteBlock(g, s, own, i, s.inodes[i].size, off);
    var b := Ref(g, s, i, SlotOf(off / BSIZE));
    forall x | off <= x < off + m ensures Contents(g, s, own, i)[x] == s.disk[b][off % BSIZE + (x - off)] {
      InBlock(off, m, x);
      ByteBlock(g, s, own, i, s.inodes[i].size, x);
    }
  }

  /** A block that starts below len is allocated already. */
  lemma {:induction false} FilledBlock(g: Geometry, s: St, i: nat, len: nat, c: seq<Byte>, off: nat)
    requires Shape(g, s) && i < |s.inodes| && FileIs(g, s, i, len, c) && off < MAXBYTES
    ensures off / BSIZE < MAXFILE
    ensures BlockBelow(off, len) ==> Ref(g, s, i, SlotOf(off / BSIZE)) != 0
  {
    hide Ref, Shape, ByteAt;
    BlockIndex(off);
  }

  lemma {:induction false} WriteStepOthers(g: Geometry, s: St, own: Owners, i: nat, b: nat, len: nat, c: seq<Byte>,
        off: nat, p: seq<Byte>)
    requires Inv(g, s, own) && i < |s.inodes| && FileIs(g, s, i, len, c) && off <= len
    requires |p| > 0 && off % BSIZE + |p| <= BSIZE && off + |p| <= MAXBYTES && off / BSIZE < MAXFILE
    requires b == Ref(g, s, i, SlotOf(off / BSIZE)) && b != 0
    ensures b < g.size
    ensures var t := s.(disk := s.disk[b := Splice(s.disk[b], off % BSIZE, p)]);
            Shape(g, t) && OthersKept(g, s, t, i)
  {
    hide Owned, Mapped, Sized, FileIs, Ref;
    WriteStep(g, s, own, i, len, c, off, p);
  }

  lemma {:induction false} UnionCard(a: set<nat>, b: set<nat>)
    ensures |a + b| <= |a| + |b|
  {
    assert a + b == a + (b - a);
    SubsetCard(b - a, b);
  }

  /** Log space used by writei so far: it data blocks, the map blocks of the allocations, and the
      indirect block. */
  ghost predicate Budget(logged: set<nat>, start: set<nat>, data: set<nat>, maps: set<nat>, ind: set<nat>,
                         rounds: nat, allocs: nat)
  {
    logged <= start + data + maps + ind && |data| <= rounds && |maps| <= allocs && |ind| <= 1
  }

  lemma {:induction false} BudgetNext(logged: set<nat>, start: set<nat>, data: set<nat>, maps: set<nat>, ind: set<nat>,
                                      rounds: nat, allocs: nat, logged2: set<nat>, addr: nat, maps2: set<nat>,
                                      ind2: set<nat>, k: nat)
    requires Budget(logged, start, data, maps, ind, rounds, allocs)
    requires ind <= ind2 && |ind2| <= 1 && |maps2| <= k
    requires logged2 <= logged + maps2 + ind2 + {addr}
    ensures Budget(logged2, start, data + {addr}, maps + maps2, ind2, rounds + 1, allocs + k)
  {
    UnionCard(data, {addr});
    UnionCard(maps, maps2);
  }

  lemma {:induction false} BudgetTotal(logged: set<nat>, data: set<nat>, maps: set<nat>, ind: set<nat>, rounds: nat,
        allocs: nat, x: nat)
    requires Budget(logged, {}, data, maps, ind, rounds, allocs)
    ensures |logged + {x}| <= rounds + allocs + 2
  {
    UnionCard(data, maps);
    UnionCard(data + maps, ind);
    UnionCard(data + maps + ind, {x});
    SubsetCard(logged + {x}, data + maps + ind + {x});
  }

  /** The block that holds offset off starts below len. */
  predicate BlockBelow(off: nat, len: nat) {
    off / BSIZE * BSIZE < len
  }

  /** Progress of writei's loop after `rounds` iterations, with `left` bytes to go: every
      iteration but the last ends at a block boundary, and the first one allocates nothing if
      the write starts inside a block. */
  ghost predicate Progress(off0: nat, off: nat, left: nat, rounds: nat, allocs: nat, grew: bool) {
    && (rounds == 0 ==> off == off0)
    && (rounds > 0 ==>
          off > (off0 / BSIZE + rounds - 1) * BSIZE && (left > 0 ==> off == (off0 / BSIZE + rounds) * BSIZE))
    && allocs + Count(off0 % BSIZE != 0 && rounds > 0) <= rounds + Count(grew)
  }

  lemma {:induction false} ProgressNext(off0: nat, off: nat, left: nat, rounds: nat, allocs: nat, grew: bool, m: nat,
        k: nat, grew2: bool)
    requires Progress(off0, off, left, rounds, allocs, grew) && left > 0
    requires m == Min(left, BSIZE - off % BSIZE) && (grew ==> grew2)
    requires k <= 1 + Count(grew2 && !grew)
    requires BlockBelow(off, off) ==> k == 0
    ensures Progress(off0, off + m, left - m, rounds + 1, allocs + k, grew2)
  {
    if rounds > 0 {
      assert off % BSIZE == 0;
    }
  }

  /** A chunk of filewrite is CHUNK = 1536 bytes: at most four data blocks and four map blocks. */
  lemma {:induction false} ChunkRounds(off0: nat, n: nat, rounds: nat, allocs: nat, grew: bool)
    requires Progress(off0, off0 + n, 0, rounds, allocs, grew) && n <= CHUNK
    ensures rounds + allocs <= MAXOPBLOCKS - 2
  {
    assert rounds <= 4;
    assert off0 % BSIZE == 0 ==> rounds <= 3;
  }

  lemma {:induction false} IndirectFacts(ip: Inode, ip2: Inode)
    requires |ip.addrs| == |ip2.addrs| == NDIRECT + 1
    requires ip.addrs[NDIRECT] != 0 ==> ip2.addrs[NDIRECT] == ip.addrs[NDIRECT]
    ensures Indirect(ip) <= Indirect(ip2) && |Indirect(ip2)| <= 1
  {
  }

  /** off + n < off in unsigned 32-bit arithmetic. */
  predicate Wraps(off: nat, n: nat) {
    (off + n) % UINT < off
  }

  lemma {:induction false} WrapsMeans(off: nat, n: nat)
    requires off < UINT && n < UINT
    ensures Wraps(off, n) <==> off + n >= UINT
  {
  }

  /** What writei has logged so far: blocks `logged` since `start`, for an inode that had the
      indirect block `ind0` and now is `ip`. */
  ghost predicate Account(logged: set<nat>, start: set<nat>, data: set<nat>, maps: set<nat>, ind0: nat, ip: Inode,
                          off0: nat, off: nat, left: nat, rounds: nat, allocs: nat)
  {
    && |ip.addrs| == NDIRECT + 1 && (ind0 != 0 ==> ip.addrs[NDIRECT] == ind0)
    && Budget(logged, start, data, maps, Indirect(ip), rounds, allocs)
    && Progress(off0, off, left, rounds, allocs, ind0 == 0 && ip.addrs[NDIRECT] != 0)
  }

  lemma {:induction false} AccountNext(logged: set<nat>, start: set<nat>, data: set<nat>, maps: set<nat>, ind0: nat,
                                       ip: Inode, off0: nat, off: nat, left: nat, rounds: nat, allocs: nat,
                                       logged2: set<nat>, addr: nat, maps2: set<nat>, ip2: Inode, m: nat)
    requires Account(logged, start, data, maps, ind0, ip, off0, off, left, rounds, allocs) && left > 0
    requires m == Min(left, BSIZE - off % BSIZE) && |ip2.addrs| == NDIRECT + 1
    requires ip.addrs[NDIRECT] != 0 ==> ip2.addrs[NDIRECT] == ip.addrs[NDIRECT]
    requires logged2 <= logged + maps2 + Indirect(ip2) + {addr}
    requires |maps2| <= 1 + Count(ip.addrs[NDIRECT] == 0 && ip2.addrs[NDIRECT] != 0)
    requires BlockBelow(off, off) ==> maps2 == {}
    ensures m <= left
    ensures Account(logged2, start, data + {addr}, maps + maps2, ind0, ip2, off0, off + m, left - m, rounds + 1,
          allocs + |maps2|)
  {
    hide Progress, Budget, BlockBelow, Indirect, Min;
    IndirectFacts(ip, ip2);
    PieceFacts(off, left, off);
    var grew, grew2 := ind0 == 0 && ip.addrs[NDIRECT] != 0, ind0 == 0 && ip2.addrs[NDIRECT] != 0;
    BudgetNext(logged, start, data, maps, Indirect(ip), rounds, allocs, logged2, addr, maps2, Indirect(ip2), |maps2|);
    ProgressNext(off0, off, left, rounds, allocs, grew, m, |maps2|, grew2);
  }

  lemma {:induction false} LoopStart(g: Geometry, s: St, i: nat, logged: set<nat>, off0: nat, n: nat)
    requires Shape(g, s) && i < |s.inodes|
    ensures OthersKept(g, s, s, i)
    ensures Account(logged, logged, {}, {}, s.inodes[i].addrs[NDIRECT], s.inodes[i], off0, off0, n, 0, 0)
  {
  }

  /** A chunk of CHUNK bytes logs at most MAXOPBLOCKS blocks, even if every allocation writes a
      different map block: four data, four map, the indirect and the inode block. */
  lemma {:induction false} ChunkBudget(logged: set<nat>, data: set<nat>, maps: set<nat>, ind0: nat, ip: Inode,
                                       off0: nat, n: nat, rounds: nat, allocs: nat, x: nat)
    requires Account(logged, {}, data, maps, ind0, ip, off0, off0 + n, 0, rounds, allocs) && n <= CHUNK
    ensures |logged + {x}| <= MAXOPBLOCKS
  {
    hide Progress, Budget;
    ChunkRounds(off0, n, rounds, allocs, ind0 == 0 && ip.addrs[NDIRECT] != 0);
    BudgetTotal(logged, data, maps, Indirect(ip), rounds, allocs, x);
  }

  /** Raising the size of an inode over allocated bytes. */
  lemma {:induction false} GrowFile(g: Geometry, s: St, own: Owners, i: nat, size: nat, len: nat, c: seq<Byte>)
    requires Inv(g, s, own) && i < |s.inodes| && FileIs(g, s, i, len, c) && size <= len
    ensures var t := s.(inodes := s.inodes[i := s.inodes[i].(size := size)]);
            && Inv(g, t, own) && FileIs(g, t, i, len, c)
            && OthersKept(g, s, t, i)
  {
    hide WordAt, BitAt;
    var t := s.(inodes := s.inodes[i := s.inodes[i].(size := size)]);
    assert forall a, k :: 0 <= a < |s.inodes| && 0 <= k < SLOTS ==> Ref(g, t, a, k) == Ref(g, s, a, k);
  }

  /** The contents of all files once writei has set the size. */
  lemma {:induction false} FinishWrite(g: Geometry, s: St, own: Owners, t: St, u: St, own2: Owners, i: nat,
        c: seq<Byte>)
    requires Inv(g, s, own) && Inv(g, t, own2) && Inv(g, u, own2) && i < |s.inodes|
    requires OthersKept(g, s, t, i) && OthersKept(g, t, u, i)
    requires FileIs(g, u, i, u.inodes[i].size, c)
    ensures Contents(g, u, own2, i) == c
    ensures forall j :: 0 <= j < |s.inodes| && j != i ==>
          u.inodes[j] == s.inodes[j] && Contents(g, u, own2, j) == Contents(g, s, own, j)
  {
    hide FileIs, Owned, Mapped, Sized, Contents;
    OthersTrans(g, s, t, u, i);
    ContentsAre(g, u, own2, i);
    forall j | 0 <= j < |s.inodes| && j != i ensures Contents(g, u, own2, j) == Contents(g, s, own, j) {
      OthersContents(g, s, u, own, own2, i, j);
    }
  }

  lemma {:induction false} PieceFacts(off: nat, left: nat, len: nat)
    requires left > 0 && off <= len
    ensures var m := Min(left, BSIZE - off % BSIZE); 0 < m <= left && off % BSIZE + m <= BSIZE
    ensures !BlockBelow(off, len) ==> off == len
    ensures BlockBelow(off, off) ==> BlockBelow(off, len)
  {
  }

  lemma {:induction false} NextMap(b: nat)
    requires b % BPB == 0
    ensures (b + BPB) % BPB == 0
  {
  }

  /** The slots of an inode that itrunc has freed: the first k, and j entries of the indirect block. */
  predicate Gone(slot: nat, k: nat, j: nat) {
    slot < k || NDIRECT < slot <= NDIRECT + j
  }

  ghost function Dropped(own: Owners, i: nat, k: nat, j: nat): Owners {
    map b | b in own && !(own[b].0 == i && Gone(own[b].1, k, j)) :: own[b]
  }

  /** Freeing the block in one more slot, or skipping an empty slot. */
  lemma {:induction false} DropSlot(g: Geometry, s: St, own: Owners, d: seq<Block>, i: nat, k: nat, j: nat, k2: nat,
        j2: nat, slot: nat)
    requires Shape(g, s) && Owned(g, s, own) && |d| == g.size && i < |s.inodes| && slot < SLOTS
    requires forall x :: 0 <= x < SLOTS ==> (Gone(x, k2, j2) <==> Gone(x, k, j) || x == slot)
    requires !Gone(slot, k, j) && Mapped(g, d, Dropped(own, i, k, j), {})
    ensures Ref(g, s, i, slot) == 0 ==> Mapped(g, d, Dropped(own, i, k2, j2), {})
    ensures Ref(g, s, i, slot) != 0 ==>
              var b := Ref(g, s, i, slot);
              b < g.size && BitAt(g, d, b) && Mapped(g, FreeBit(g, d, b), Dropped(own, i, k2, j2), {})
  {
    hide Ref, BitAt, FreeBit, Gone;
    var b := Ref(g, s, i, slot);
    if b == 0 {
      forall c | c in own ensures own[c] != (i, slot) { assert c > 0; }
    } else {
      forall c | 0 <= c < g.size
        ensures BitAt(g, FreeBit(g, d, b), c) <==> c < g.datastart || c in Dropped(own, i, k2, j2)
      {
        OneBit(g, d, b, c);
      }
    }
  }

  lemma {:induction false} DropNothing(g: Geometry, s: St, own: Owners, i: nat)
    requires Inv(g, s, own)
    ensures Mapped(g, s.disk, Dropped(own, i, 0, 0), {})
  {
    assert Dropped(own, i, 0, 0) == own;
  }

  /** Without an indirect block there is nothing to free beyond the direct blocks. */
  lemma {:induction false} NoIndirect(g: Geometry, s: St, own: Owners, i: nat)
    requires Shape(g, s) && Owned(g, s, own) && i < |s.inodes| && s.inodes[i].addrs[NDIRECT] == 0
    ensures Dropped(own, i, NDIRECT + 1, NINDIRECT) == Dropped(own, i, NDIRECT, 0)
  {
    hide WordAt;
    forall b | b in own && own[b].0 == i ensures own[b].1 < NDIRECT {
      assert Ref(g, s, i, own[b].1) == b > 0;
    }
  }

  lemma {:induction false} DirectRef(g: Geometry, s: St, i: nat)
    requires Shape(g, s) && i < |s.inodes|
    ensures Ref(g, s, i, NDIRECT) == s.inodes[i].addrs[NDIRECT]
  {
  }

  /** Freeing a block leaves the data area alone. */
  lemma {:induction false} FreeData(g: Geometry, d: seq<Block>, b: nat)
    requires g.Ok() && |d| == g.size && b < g.size
    ensures forall c :: g.datastart <= c < g.size ==> FreeBit(g, d, b)[c] == d[c]
  {
    hide BitAt, FreeBit;
    forall c | g.datastart <= c < g.size ensures FreeBit(g, d, b)[c] == d[c] { OneBit(g, d, b, c); }
  }

  /** itrunc's result: the inode refers to nothing, its blocks are free, the rest is as it was. */
  lemma {:induction false} Truncated(g: Geometry, s: St, own: Owners, d: seq<Block>, i: nat, ip: Inode)
    requires Inv(g, s, own) && |d| == g.size && i < |s.inodes|
    requires Mapped(g, d, Dropped(own, i, NDIRECT + 1, NINDIRECT), {})
    requires forall b :: g.datastart <= b < g.size ==> d[b] == s.disk[b]
    requires |ip.addrs| == NDIRECT + 1 && ip.size == 0 && forall k :: 0 <= k <= NDIRECT ==> ip.addrs[k] == 0
    ensures var t, own2 := St(d, s.inodes[i := ip]), Dropped(own, i, NDIRECT + 1, NINDIRECT);
            Inv(g, t, own2) && OthersKept(g, s, t, i) && FileIs(g, t, i, 0, [])
  {
    hide BitAt, WordAt, Mapped, ByteAt;
    var t, own2 := St(d, s.inodes[i := ip]), Dropped(own, i, NDIRECT + 1, NINDIRECT);
    assert Shape(g, t);
    TruncatedRefs(g, s, own, t, i);
    TruncatedOwned(g, s, own, t, i);
    TruncatedSized(g, s, t, i);
    TruncatedOthers(g, s, own, t, i);
  }

  lemma {:induction false} TruncatedRefs(g: Geometry, s: St, own: Owners, t: St, i: nat)
    requires Shape(g, s) && Shape(g, t) && Owned(g, s, own) && i < |s.inodes| == |t.inodes|
    requires forall j :: 0 <= j < |s.inodes| && j != i ==> t.inodes[j] == s.inodes[j]
    requires forall k :: 0 <= k <= NDIRECT ==> t.inodes[i].addrs[k] == 0
    requires forall b :: g.datastart <= b < g.size ==> t.disk[b] == s.disk[b]
    ensures forall j, k :: 0 <= j < |s.inodes| && 0 <= k < SLOTS ==>
          Ref(g, t, j, k) == if j == i then 0 else Ref(g, s, j, k)
  {
    hide WordAt, Owned;
    forall j, k | 0 <= j < |s.inodes| && 0 <= k < SLOTS
      ensures Ref(g, t, j, k) == if j == i then 0 else Ref(g, s, j, k) {
      if j != i && s.inodes[j].addrs[NDIRECT] != 0 { IndirectOwned(g, s, own, j); }
    }
  }

  lemma {:induction false} TruncatedOwned(g: Geometry, s: St, own: Owners, t: St, i: nat)
    requires Shape(g, s) && Shape(g, t) && Owned(g, s, own) && i < |s.inodes| == |t.inodes|
    requires forall j, k :: 0 <= j < |s.inodes| && 0 <= k < SLOTS ==>
          Ref(g, t, j, k) == if j == i then 0 else Ref(g, s, j, k)
    ensures Owned(g, t, Dropped(own, i, NDIRECT + 1, NINDIRECT))
  {
    hide Ref;
  }

  lemma {:induction false} TruncatedSized(g: Geometry, s: St, t: St, i: nat)
    requires Shape(g, s) && Shape(g, t) && Sized(g, s) && i < |s.inodes| == |t.inodes| && t.inodes[i].size == 0
    requires forall j :: 0 <= j < |s.inodes| && j != i ==> t.inodes[j] == s.inodes[j]
    requires forall j, k :: 0 <= j < |s.inodes| && 0 <= k < SLOTS ==>
          Ref(g, t, j, k) == if j == i then 0 else Ref(g, s, j, k)
    ensures Sized(g, t) && Filled(g, t, i, 0)
  {
    hide Ref;
  }

  lemma {:induction false} TruncatedOthers(g: Geometry, s: St, own: Owners, t: St, i: nat)
    requires Shape(g, s) && Shape(g, t) && Owned(g, s, own) && i < |s.inodes| == |t.inodes|
    requires forall j :: 0 <= j < |s.inodes| && j != i ==> t.inodes[j] == s.inodes[j]
    requires forall j, k :: 0 <= j < |s.inodes| && 0 <= k < SLOTS ==>
          Ref(g, t, j, k) == if j == i then 0 else Ref(g, s, j, k)
    requires forall b :: g.datastart <= b < g.size ==> t.disk[b] == s.disk[b]
    ensures OthersKept(g, s, t, i)
  {
    hide Ref, Owned;
    forall j, len, c | 0 <= j < |s.inodes| && j != i && 0 <= len && FileIs(g, s, j, len, c)
      ensures FileIs(g, t, j, len, c) {
      forall x | 0 <= x < len ensures ByteAt(g, t, j, x) == c[x] {
        ByteBlock(g, s, own, j, len, x);
      }
    }
  }

  // ---- What is logged, and the inodes on disk ----

  /** From disk d on, with log blocks `log`, only free-map and data blocks were written, and every
      block that has changed is in log2. */
  ghost predicate Wrote(g: Geometry, d: seq<Block>, log: set<nat>, d2: seq<Block>, log2: set<nat>) {
    && Framed(d, log, d2, log2)
    && (forall b :: b in log2 && b !in log ==> g.bmapstart <= b < g.size)
    && (forall b :: 0 <= b < g.bmapstart && b < |d| ==> d2[b] == d[b])
  }

  /** Every block that has changed is logged. */
  ghost predicate Framed(d: seq<Block>, log: set<nat>, d2: seq<Block>, log2: set<nat>) {
    |d2| == |d| && log <= log2 && forall b :: 0 <= b < |d| && b !in log2 ==> d2[b] == d[b]
  }

  lemma {:induction false} WroteSelf(g: Geometry, d: seq<Block>, log: set<nat>)
    ensures Wrote(g, d, log, d, log)
  {
  }

  lemma {:induction false} WroteTrans(g: Geometry, d: seq<Block>, log: set<nat>, d1: seq<Block>, log1: set<nat>,
                                      d2: seq<Block>, log2: set<nat>)
    requires Wrote(g, d, log, d1, log1) && Wrote(g, d1, log1, d2, log2)
    ensures Wrote(g, d, log, d2, log2)
  {
  }

  lemma {:induction false} FramedTrans(g: Geometry, d: seq<Block>, log: set<nat>, d1: seq<Block>, log1: set<nat>,
                                       d2: seq<Block>, log2: set<nat>)
    requires Wrote(g, d, log, d1, log1) && Framed(d1, log1, d2, log2)
    ensures Framed(d, log, d2, log2)
  {
  }

  lemma {:induction false} WroteBlock(g: Geometry, d: seq<Block>, log: set<nat>, b: nat, data: Block)
    requires g.bmapstart <= b < g.size == |d|
    ensures Wrote(g, d, log, d[b := data], log + {b})
  {
  }

  /** balloc of a data block. */
  lemma {:induction false} WroteMark(g: Geometry, d: seq<Block>, log: set<nat>, b: nat)
    requires g.Ok() && |d| == g.size && g.datastart <= b < g.size
    ensures Wrote(g, d, log, MarkBit(g, d, b)[b := Zeroes()], log + {g.MapBlock(b), b})
  {
    hide SetBit;
    MapFits(g, b);
  }

  lemma {:induction false} WroteFree(g: Geometry, d: seq<Block>, log: set<nat>, b: nat)
    requires g.Ok() && |d| == g.size && b < g.size
    ensures Wrote(g, d, log, FreeBit(g, d, b), log + {g.MapBlock(b)})
  {
    hide ClearBit;
    MapFits(g, b);
  }

  /** The inode blocks hold dinodes, and only blocks behind the log are logged. */
  ghost predicate OnDisk(g: Geometry, d: seq<Block>, dinodes: seq<Inode>, n: nat, logged: set<nat>) {
    Encodes(g, d, dinodes) && |dinodes| == n && forall b :: b in logged ==> g.inodestart <= b < g.size
  }

  lemma {:induction false} WroteOnDisk(g: Geometry, d: seq<Block>, log: set<nat>, d2: seq<Block>, log2: set<nat>,
                                       dinodes: seq<Inode>, n: nat)
    requires OnDisk(g, d, dinodes, n, log) && Wrote(g, d, log, d2, log2)
    ensures OnDisk(g, d2, dinodes, n, log2)
  {
    hide Encodes;
    EncodesOk(g, d, dinodes);
    EncodesKept(g, d, d2, dinodes);
  }

  lemma {:induction false} DinodeCount(g: Geometry, d: seq<Block>, dinodes: seq<Inode>, n: nat, logged: set<nat>)
    requires OnDisk(g, d, dinodes, n, logged)
    ensures |dinodes| == n
  {
  }

  /** A new transaction has logged nothing. */
  lemma {:induction false} FreshLog(g: Geometry, d: seq<Block>, dinodes: seq<Inode>, n: nat, logged: set<nat>)
    requires OnDisk(g, d, dinodes, n, logged)
    ensures OnDisk(g, d, dinodes, n, {}) && |dinodes| == n
  {
  }

  lemma {:induction false} EncodesOk(g: Geometry, d: seq<Block>, dinodes: seq<Inode>)
    requires Encodes(g, d, dinodes)
    ensures g.Ok() && |d| == g.size
  {
  }

  /** iupdate. */
  lemma {:induction false} PutOnDisk(g: Geometry, d: seq<Block>, dinodes: seq<Inode>, n: nat, log: set<nat>, i: nat,
                                     ip: Inode)
    requires OnDisk(g, d, dinodes, n, log) && i < n && Encodable(ip)
    ensures g.inodestart <= InodeBlock(g, i) < g.bmapstart < g.size == |d| && |dinodes| == n
    ensures var b := InodeBlock(g, i);
            OnDisk(g, d[b := PutDinode(d[b], i, ip)], dinodes[i := ip], n, log + {b})
  {
    hide PutDinode;
    InodeBlockFits(g, i);
    EncodesPut(g, d, dinodes, i, ip);
  }

  /** All files read the same in t as in s. */
  ghost predicate FilesKept(g: Geometry, s: St, t: St)
    requires Shape(g, s) && Shape(g, t)
  {
    && t.inodes == s.inodes
    && forall j, len, c :: 0 <= j < |s.inodes| && 0 <= len && FileIs(g, s, j, len, c) ==> FileIs(g, t, j, len, c)
  }

  lemma {:induction false} FilesOthers(g: Geometry, s: St, t: St, i: nat)
    requires Shape(g, s) && Shape(g, t) && FilesKept(g, s, t)
    ensures OthersKept(g, s, t, i)
  {
    hide FileIs, Shape;
  }

  /** No file depends on an inode block. */
  lemma {:induction false} InodeBlockKeeps(g: Geometry, s: St, own: Owners, b: nat, data: Block)
    requires Inv(g, s, own) && b < g.bmapstart
    ensures b < |s.disk|
    ensures var t := s.(disk := s.disk[b := data]); Inv(g, t, own) && FilesKept(g, s, t)
  {
    hide Owned, Sized, Filled, Ref, BitAt, FileIs;
    OwnersInData(g, s, own);
    var t := s.(disk := s.disk[b := data]);
    DiskOnly(g, s, t, own);
    BelowMap(g, s.disk, b, data);
    forall j, len, c | 0 <= j < |s.inodes| && 0 <= len && FileIs(g, s, j, len, c) ensures FileIs(g, t, j, len, c) {
      DataKept(g, s, t, own, j, len, c);
    }
  }

  lemma {:induction false} BelowMap(g: Geometry, d: seq<Block>, b: nat, data: Block)
    requires g.Ok() && |d| == g.size && b < g.bmapstart
    ensures forall c :: 0 <= c < g.size ==> BitAt(g, d[b := data], c) == BitAt(g, d, c)
  {
    hide Bit;
    forall c | 0 <= c < g.size ensures BitAt(g, d[b := data], c) == BitAt(g, d, c) { MapFits(g, c); }
  }

  /** A file whose blocks are the same, with the same data, reads the same. */
  lemma {:induction false} DataKept(g: Geometry, s: St, t: St, own: Owners, j: nat, len: nat, c: seq<Byte>)
    requires Shape(g, s) && Shape(g, t) && Owned(g, s, own) && Owned(g, t, own) && t.inodes == s.inodes
    requires forall i, k :: 0 <= i < |s.inodes| && 0 <= k < SLOTS ==> Ref(g, t, i, k) == Ref(g, s, i, k)
    requires forall i, limit :: 0 <= i < |s.inodes| && 0 <= limit && Filled(g, s, i, limit) ==> Filled(g, t, i, limit)
    requires forall b :: g.datastart <= b < g.size ==> t.disk[b] == s.disk[b]
    requires j < |s.inodes| && FileIs(g, s, j, len, c)
    ensures FileIs(g, t, j, len, c)
  {
    hide Owned, Ref, Filled, ByteAt, Shape;
    forall x | 0 <= x < len ensures ByteAt(g, t, j, x) == c[x] {
      ByteBlock(g, s, own, j, len, x);
      ByteBlock(g, t, own, j, len, x);
    }
  }

  /** No block is free: the only way into balloc's panic. */
  ghost predicate Full(g: Geometry, d: seq<Block>) {
    g.Ok() && |d| == g.size && forall b :: 0 <= b < g.size ==> BitAt(g, d, b)
  }

  class FileSystem {
    const g: Geometry
    var disk: seq<Block>
    var inodes: seq<Inode>    // in-core inodes
    var logged: set<nat>      // blocks passed to log_write in this transaction
    ghost var own: Owners
    ghost var dinodes: seq<Inode>   // the inodes that the inode blocks hold

    ghost function S(): St
      reads this
    {
      St(disk, inodes)
    }

    ghost predicate Valid()
      reads this
    {
      Inv(g, S(), own) && OnDisk(g, disk, dinodes, |inodes|, logged)
    }

    constructor (g: Geometry, disk: seq<Block>, inodes: seq<Inode>, ghost own: Owners)
      requires Inv(g, St(disk, inodes), own) && Encodes(g, disk, inodes)
      ensures Valid() && S() == St(disk, inodes) && this.own == own && this.g == g
      ensures dinodes == inodes && logged == {}
    {
      this.g := g;
      this.disk := disk;
      this.inodes := inodes;
      dinodes := inodes;
      logged := {};
      this.own := own;
    }

    /** The contents of file i, as a caller sees them. */
    ghost function File(i: nat): (r: seq<Byte>)
      requires Valid() && i < |inodes|
      reads this
      ensures |r| == inodes[i].size
    {
      Contents(g, S(), own, i)
    }

    method Balloc() returns (ok: bool, b: nat)
      requires g.Ok() && |disk| == g.size
      modifies this`disk, this`logged
      ensures ok ==>
                && b < g.size && !BitAt(g, old(disk), b)
                && (forall c :: 0 <= c < b ==> BitAt(g, old(disk), c))
                && disk == MarkBit(g, old(disk), b)[b := Zeroes()]
                && logged == old(logged) + {g.MapBlock(b), b}
      ensures !ok ==>
                Full(g, disk) && disk == old(disk) && logged == old(logged)
    {
      hide Bit, SetBit, BitAt, MarkBit, Geometry.MapBlock;
      b := 0;
      while b < g.size
        invariant b % BPB == 0
        invariant disk == old(disk) && logged == old(logged)
        invariant forall c :: 0 <= c < b && c < g.size ==> BitAt(g, disk, c)
      {
        var bi := ScanMap(b);
        if bi < BPB && b + bi < g.size {
          MarkAt(g, disk, b, bi);
          var bp := disk[g.MapBlock(b)];
          disk := disk[g.MapBlock(b) := bp[bi / 8 := SetBit(bp[bi / 8], bi % 8)]];
          logged := logged + {g.MapBlock(b)};
          disk := disk[b + bi := Zeroes()];
          logged := logged + {b + bi};
          return true, b + bi;
        }
        NextMap(b);
        b := b + BPB;
      }
      ok := false;
    }

    /** The inner loop of balloc: the first clear bit of the map block that starts at block b. */
    method ScanMap(b: nat) returns (bi: nat)
      requires g.Ok() && |disk| == g.size && b < g.size && b % BPB == 0
      ensures bi <= BPB && forall c :: b <= c < b + bi && c < g.size ==> BitAt(g, disk, c)
      ensures bi < BPB && b + bi < g.size ==> !BitAt(g, disk, b + bi)
      ensures bi < BPB ==> b + bi < g.size || b + bi == g.size
    {
      hide Bit;
      MapFits(g, b);
      var bp := disk[g.MapBlock(b)];
      bi := 0;
      while bi < BPB && b + bi < g.size
        invariant 0 <= bi <= BPB && b + bi <= g.size
        invariant forall c :: b <= c < b + bi ==> BitAt(g, disk, c)
      {
        MapIndex(g, b, bi);
        MapFits(g, b + bi);
        if !Bit(bp[bi / 8], bi % 8) {
          return;
        }
        bi := bi + 1;
      }
    }

    method Bfree(b: nat) returns (ok: bool)
      requires g.Ok() && |disk| == g.size && b < g.size
      modifies this`disk, this`logged
      ensures ok == BitAt(g, old(disk), b)
      ensures ok ==> disk == FreeBit(g, old(disk), b) && logged == old(logged) + {g.MapBlock(b)}
      ensures !ok ==> disk == old(disk) && logged == old(logged)
    {
      hide Bit, ClearBit;
      MapFits(g, b);
      var bp := disk[g.MapBlock(b)];
      var bi := b % BPB;
      BitIndex(b);
      assert bi % 8 == b % 8;
      if !Bit(bp[bi / 8], bi % 8) {
        return false;
      }
      ByteFits(bp[bi / 8], bi % 8);
      bp := bp[bi / 8 := ClearBit(bp[bi / 8], bi % 8)];
      disk := disk[g.MapBlock(b) := bp];
      logged := logged + {g.MapBlock(b)};
      ok := true;
    }

    /** ip->addrs[k] = balloc(). */
    method AllocDirect(i: nat, k: nat) returns (ok: bool, b: nat)
      requires Valid() && i < |inodes| && k <= NDIRECT && inodes[i].addrs[k] == 0
      modifies this`disk, this`inodes, this`logged, this`own
      ensures Valid()
      ensures ok ==>
                && b != 0 && Extends(g, old(S()), S(), old(own), own, i)
                && AddsRef(g, old(S()), S(), i, k, b)
                && inodes[i].addrs == old(inodes)[i].addrs[k := b]
                && logged == old(logged) + {g.MapBlock(b), b}
                && Wrote(g, old(disk), old(logged), disk, logged)
      ensures !ok ==> Full(g, disk) && S() == old(S()) && own == old(own) && logged == old(logged)
    {
      hide Owned, Mapped, Sized, MarkBit, Extends, AddsRef, BitAt, OnDisk, Wrote;
      ok, b := Balloc();
      if ok {
        NewDirect(g, old(S()), old(own), i, k, b);
        WroteMark(g, old(disk), old(logged), b);
        WroteOnDisk(g, old(disk), old(logged), disk, logged, dinodes, |inodes|);
        inodes := inodes[i := inodes[i].(addrs := inodes[i].addrs[k := b])];
        own := own[b := (i, k)];
      }
    }

    /** a[k - NDIRECT - 1] = balloc(), in the indirect block of the inode. */
    method AllocEntry(i: nat, k: nat) returns (ok: bool, b: nat)
      requires Valid() && i < |inodes| && NDIRECT < k < SLOTS
      requires inodes[i].addrs[NDIRECT] != 0 && Ref(g, S(), i, k) == 0
      modifies this`disk, this`logged, this`own
      ensures Valid()
      ensures ok ==>
                && b != 0 && Extends(g, old(S()), S(), old(own), own, i)
                && AddsRef(g, old(S()), S(), i, k, b)
                && logged == old(logged) + {g.MapBlock(b), b, inodes[i].addrs[NDIRECT]}
                && Wrote(g, old(disk), old(logged), disk, logged)
      ensures !ok ==> Full(g, disk) && S() == old(S()) && own == old(own) && logged == old(logged)
    {
      hide Owned, Mapped, Sized, MarkBit, Extends, AddsRef, BitAt, PutWord, Ref, OnDisk, Wrote;
      var ind := inodes[i].addrs[NDIRECT];
      IndirectOwned(g, S(), own, i);
      var bp := disk[ind];
      ok, b := Balloc();
      if ok {
        NewEntry(g, old(S()), old(own), i, k, b);
        bp := PutWord(bp, k - NDIRECT - 1, b);
        WroteMark(g, old(disk), old(logged), b);
        WroteBlock(g, disk, logged, ind, bp);
        WroteTrans(g, old(disk), old(logged), disk, logged, disk[ind := bp], logged + {ind});
        disk := disk[ind := bp];
        logged := logged + {ind};
        WroteOnDisk(g, old(disk), old(logged), disk, logged, dinodes, |inodes|);
        own := own[b := (i, k)];
      }
    }

    /** bmap.  `maps` are the free-map blocks it wrote. */
    method Bmap(i: nat, bn: nat) returns (ok: bool, addr: nat, ghost maps: set<nat>)
      requires Valid() && i < |inodes|
      modifies this`disk, this`inodes, this`logged, this`own
      ensures Valid() && |inodes| == |old(inodes)| && Extends(g, old(S()), S(), old(own), own, i)
      ensures bn >= MAXFILE ==> !ok
      ensures !ok ==> bn >= MAXFILE || Full(g, disk)
      ensures Wrote(g, old(disk), old(logged), disk, logged)
      ensures ok ==> addr != 0 && addr == Ref(g, S(), i, SlotOf(bn))
      ensures bn < MAXFILE && Ref(g, old(S()), i, SlotOf(bn)) != 0 ==>
                ok && S() == old(S()) && own == old(own) && logged == old(logged) && maps == {}
      ensures ok ==>
                && logged <= old(logged) + maps + Indirect(inodes[i]) + {addr}
                && |maps| <= Count(Ref(g, old(S()), i, SlotOf(bn)) == 0)
                             + Count(old(inodes)[i].addrs[NDIRECT] == 0 && inodes[i].addrs[NDIRECT] != 0)
                && (old(inodes)[i].addrs[NDIRECT] != 0 ==> inodes[i].addrs[NDIRECT] == old(inodes)[i].addrs[NDIRECT])
    {
      hide Owned, Mapped, Sized, Extends, BitAt, WordAt, Filled, OnDisk;
      ExtendsSelf(g, S(), own, i);
      maps := {};
      addr := 0;
      if bn < NDIRECT {
        ok, addr := true, inodes[i].addrs[bn];
        if addr == 0 {
          ok, addr := AllocDirect(i, bn);
          maps := {g.MapBlock(addr)};
        }
        return;
      }
      var n := bn - NDIRECT;
      if n < NINDIRECT {
        var ind := inodes[i].addrs[NDIRECT];
        if ind == 0 {
          ok, ind := AllocDirect(i, NDIRECT);
          if !ok {
            return;
          }
          maps := {g.MapBlock(ind)};
        }
        assert Ref(g, S(), i, bn + 1) == WordAt(disk[ind], n);
        addr := WordAt(disk[ind], n);
        if addr == 0 {
          ghost var s1, own1, log1 := S(), own, logged;
          ok, addr := AllocEntry(i, bn + 1);
          if ok {
            maps := maps + {g.MapBlock(addr)};
            ExtendsTrans(g, old(S()), s1, S(), old(own), own1, own, i);
          }
          return;
        }
        ok := true;
        return;
      }
      ok := false;
    }

    /** readi.  off and n are unsigned 32-bit; off + n may wrap around. */
    method Readi(i: nat, off0: nat, n0: nat) returns (r: int, dst: seq<Byte>)
      requires Valid() && i < |inodes| && off0 < UINT && n0 < UINT
      modifies this`disk, this`inodes, this`logged, this`own
      ensures Valid() && S() == old(S()) && own == old(own) && logged == old(logged)
      ensures off0 > inodes[i].size || off0 + n0 >= UINT ==> r == -1 && dst == []
      ensures off0 <= inodes[i].size && off0 + n0 < UINT ==>
                r == |dst| && dst == File(i)[off0..Min(off0 + n0, inodes[i].size)]
    {
      hide Owned, Mapped, Sized, Contents, Extends, Wraps, OnDisk, Wrote, Ref;
      WrapsMeans(off0, n0);
      ghost var c := File(i);
      dst := [];
      if off0 > inodes[i].size || Wraps(off0, n0) {
        return -1, [];
      }
      var n := n0;
      if off0 + n > inodes[i].size {
        n := inodes[i].size - off0;
      }
      var tot, off := 0, off0;
      while tot < n
        invariant Valid() && S() == old(S()) && own == old(own) && logged == old(logged)
        invariant 0 <= tot <= n && off == off0 + tot
        invariant dst == c[off0..off]
      {
        var m := Min(n - tot, BSIZE - off % BSIZE);
        ReadPiece(g, S(), own, i, off, m);
        var ok, addr, maps := Bmap(i, off / BSIZE);
        dst := dst + disk[addr][off % BSIZE..off % BSIZE + m];
        assert c[off0..off] + c[off..off + m] == c[off0..off + m];
        tot, off := tot + m, off + m;
      }
      r := n;
    }

    /** One round of writei's loop: bmap, memmove into the block, log_write.  The first len bytes
        of the file read as c before. */
    method WritePiece(i: nat, off: nat, p: seq<Byte>, ghost len: nat, ghost c: seq<Byte>)
      returns (ok: bool, addr: nat, ghost maps: set<nat>)
      requires Valid() && i < |inodes| && FileIs(g, S(), i, len, c) && off <= len
      requires |p| > 0 && off % BSIZE + |p| <= BSIZE && off + |p| <= MAXBYTES
      modifies this`disk, this`inodes, this`logged, this`own
      ensures Valid() && |inodes| == |old(inodes)|
      ensures !ok ==> Full(g, disk)
      ensures Wrote(g, old(disk), old(logged), disk, logged)
      ensures ok ==>
                && OthersKept(g, old(S()), S(), i) && inodes[i].size == old(inodes)[i].size
                && FileIs(g, S(), i, if off + |p| > len then off + |p| else len, Overwrite(c, off, p))
                && (BlockBelow(off, len) ==> inodes == old(inodes) && maps == {})
                && logged <= old(logged) + maps + Indirect(inodes[i]) + {addr}
                && |maps| <= 1 + Count(old(inodes)[i].addrs[NDIRECT] == 0 && inodes[i].addrs[NDIRECT] != 0)
                && (old(inodes)[i].addrs[NDIRECT] != 0 ==> inodes[i].addrs[NDIRECT] == old(inodes)[i].addrs[NDIRECT])
    {
      hide Owned, Mapped, Sized, FileIs, ByteAt, OthersKept, OnDisk, Wrote, Overwrite;
      FilledBlock(g, S(), i, len, c, off);
      ok, addr, maps := Bmap(i, off / BSIZE);
      if !ok {
        return;
      }
      ghost var s1, own1, log1 := S(), own, logged;
      ExtendsKeepsFile(g, old(S()), s1, old(own), own1, i, i, len, c);
      ExtendsKeepsOthers(g, old(S()), s1, old(own), own1, i);
      StoreBytes(i, addr, off, p, len, c);
      OthersTrans(g, old(S()), s1, S(), i);
      WroteTrans(g, old(disk), old(logged), s1.disk, log1, disk, logged);
    }

    /** memmove into the block and log_write. */
    method StoreBytes(i: nat, addr: nat, off: nat, p: seq<Byte>, ghost len: nat, ghost c: seq<Byte>)
      requires Valid() && i < |inodes| && FileIs(g, S(), i, len, c) && off <= len
      requires |p| > 0 && off % BSIZE + |p| <= BSIZE && off + |p| <= MAXBYTES && off / BSIZE < MAXFILE
      requires addr != 0 && addr == Ref(g, S(), i, SlotOf(off / BSIZE))
      modifies this`disk, this`logged
      ensures Valid() && OthersKept(g, old(S()), S(), i) && Wrote(g, old(disk), old(logged), disk, logged)
      ensures FileIs(g, S(), i, if off + |p| > len then off + |p| else len, Overwrite(c, off, p))
      ensures logged == old(logged) + {addr}
    {
      hide Owned, Mapped, Sized, FileIs, ByteAt, OthersKept, OnDisk, Wrote, Ref;
      WriteStep(g, S(), own, i, len, c, off, p);
      WriteStepOthers(g, S(), own, i, addr, len, c, off, p);
      RefOwned(g, S(), own, i, SlotOf(off / BSIZE));
      WroteBlock(g, disk, logged, addr, Splice(disk[addr], off % BSIZE, p));
      disk := disk[addr := Splice(disk[addr], off % BSIZE, p)];
      logged := logged + {addr};
      WroteOnDisk(g, old(disk), old(logged), disk, logged, dinodes, |inodes|);
    }

    /** The loop of writei.  `rounds` counts its iterations and `allocs` the map blocks they
        wrote; c0 are the old contents of the file. */
    method WriteLoop(i: nat, src: seq<Byte>, off0: nat, ghost c0: seq<Byte>)
      returns (ok: bool, ghost data: set<nat>, ghost maps: set<nat>, ghost rounds: nat, ghost allocs: nat)
      requires Valid() && i < |inodes| && off0 <= inodes[i].size && off0 + |src| <= MAXBYTES
      requires FileIs(g, S(), i, inodes[i].size, c0) && |c0| == inodes[i].size
      modifies this`disk, this`inodes, this`logged, this`own
      ensures Valid() && |inodes| == |old(inodes)|
      ensures !ok ==> Full(g, disk)
      ensures Wrote(g, old(disk), old(logged), disk, logged)
      ensures ok ==>
                && OthersKept(g, old(S()), S(), i) && inodes[i].size == old(inodes)[i].size
                && FileIs(g, S(), i, Max(inodes[i].size, off0 + |src|), Overwrite(c0, off0, src))
                && (inodes == old(inodes) || off0 + |src| > inodes[i].size)
                && Account(logged, old(logged), data, maps, old(inodes)[i].addrs[NDIRECT], inodes[i],
                           off0, off0 + |src|, 0, rounds, allocs)
    {
      hide Owned, Mapped, Sized, FileIs, OthersKept, Filled, Account, Overwrite, Min, BlockBelow, OnDisk, Wrote;
      var n := |src|;
      ghost var size0 := inodes[i].size;
      data, maps, rounds, allocs := {}, {}, 0, 0;
      ghost var ind0 := inodes[i].addrs[NDIRECT];
      LoopStart(g, S(), i, logged, off0, n);
      WroteSelf(g, disk, logged);
      OverwriteNone(c0, off0, src);
      ghost var len, c, left := size0, c0, n;
      var tot, off := 0, off0;
      while tot < n
        invariant 0 <= tot <= n && off == off0 + tot && left == n - tot
        invariant Valid() && |inodes| == |old(inodes)| && inodes[i].size == size0
        invariant OthersKept(g, old(S()), S(), i)
        invariant len == Max(size0, off) && c == Overwrite(c0, off0, src[..tot])
        invariant FileIs(g, S(), i, len, c) && Wrote(g, old(disk), old(logged), disk, logged)
        invariant inodes == old(inodes) || off > size0
        invariant Account(logged, old(logged), data, maps, ind0, inodes[i], off0, off, left, rounds, allocs)
      {
        var m := Min(n - tot, BSIZE - off % BSIZE);
        ghost var s1, log1 := S(), logged;
        ghost var addr, maps2;
        PieceFacts(off, left, len);
        var p := src[tot..tot + m];
        ok, addr, maps2 := WritePiece(i, off, p, len, c);
        WroteTrans(g, old(disk), old(logged), s1.disk, log1, disk, logged);
        if !ok {
          return;
        }
        OverwriteNext(c0, off0, src, tot, m);
        OthersTrans(g, old(S()), s1, S(), i);
        AccountNext(log1, old(logged), data, maps, ind0, s1.inodes[i], off0, off, left, rounds, allocs,
                    logged, addr, maps2, inodes[i], m);
        assert off + m > size0 || inodes == old(inodes);
        data, maps, rounds, allocs := data + {addr}, maps + maps2, rounds + 1, allocs + |maps2|;
        len, c, left := if off + |p| > len then off + |p| else len, Overwrite(c, off, p), left - m;
        tot, off := tot + m, off + m;
      }
      ok := true;
      assert src[..n] == src;
    }

    /** iupdate: copy the in-core inode to its inode block. */
    method Iupdate(i: nat)
      requires Valid() && i < |inodes|
      modifies this`disk, this`dinodes, this`logged
      ensures Valid() && dinodes == old(dinodes)[i := inodes[i]] && FilesKept(g, old(S()), S())
      ensures logged == old(logged) + {InodeBlock(g, i)} && Framed(old(disk), old(logged), disk, logged)
    {
      hide Owned, Mapped, Sized, FileIs, FilesKept, OnDisk, InodeBlock, PutDinode;
      InodeEncodable(g, S(), own, i);
      PutOnDisk(g, disk, dinodes, |inodes|, logged, i, inodes[i]);
      var b := InodeBlock(g, i);
      InodeBlockKeeps(g, S(), own, b, PutDinode(disk[b], i, inodes[i]));
      disk := disk[b := PutDinode(disk[b], i, inodes[i])];
      logged := logged + {b};
      dinodes := dinodes[i := inodes[i]];
    }

    /** The end of writei: a write of n bytes has ended at off, and the first len bytes of the file
        read as c. */
    method FinishWritei(i: nat, n: nat, off: nat, ghost len: nat, ghost c: seq<Byte>)
      requires Valid() && i < |inodes| && FileIs(g, S(), i, len, c) && off <= len
      modifies this`disk, this`inodes, this`dinodes, this`logged
      ensures Valid() && OthersKept(g, old(S()), S(), i) && FileIs(g, S(), i, len, c)
      ensures logged <= old(logged) + {InodeBlock(g, i)} && Framed(old(disk), old(logged), disk, logged)
      ensures if n > 0 && off > old(inodes)[i].size then
                && inodes == old(inodes)[i := old(inodes)[i].(size := off)]
                && dinodes == old(dinodes)[i := inodes[i]]
              else
                S() == old(S()) && dinodes == old(dinodes) && logged == old(logged)
    {
      hide Owned, Mapped, Sized, FileIs, OthersKept, Filled, InodeBlock, OnDisk;
      if n > 0 && off > inodes[i].size {
        GrowFile(g, S(), own, i, off, len, c);
        inodes := inodes[i := inodes[i].(size := off)];
        ghost var s1 := S();
        Iupdate(i);
        FilesOthers(g, s1, S(), i);
        OthersTrans(g, old(S()), s1, S(), i);
      } else {
        OthersSelf(g, S(), i);
      }
    }

    /** writei of all of src at off0; off0 + |src| may wrap around 32 bits. */
    method Writei(i: nat, src: seq<Byte>, off0: nat) returns (ok: bool, r: int)
      requires Valid() && i < |inodes| && dinodes[i] == inodes[i] && off0 < UINT && |src| < UINT
      modifies this`disk, this`inodes, this`dinodes, this`logged, this`own
      ensures off0 > old(inodes)[i].size || off0 + |src| >= UINT || off0 + |src| > MAXBYTES ==>
                ok && r == -1 && S() == old(S()) && own == old(own) && dinodes == old(dinodes) && logged == old(logged)
      ensures !ok ==> Full(g, disk)
      ensures ok ==> Valid() && |inodes| == |old(inodes)| && dinodes == old(dinodes)[i := inodes[i]]
      ensures ok ==> Framed(old(disk), old(logged), disk, logged)
      ensures ok && off0 <= old(inodes)[i].size && off0 + |src| <= MAXBYTES ==>
                && r == |src|
                && File(i) == Overwrite(old(File(i)), off0, src)
                && forall j :: 0 <= j < |inodes| && j != i ==> inodes[j] == old(inodes)[j] && File(j) == old(File(j))
      ensures ok && old(logged) == {} && |src| <= CHUNK ==> |logged| <= MAXOPBLOCKS
    {
      hide Owned, Mapped, Sized, Contents, FileIs, OthersKept, Account, Filled, Wraps, Overwrite, InodeBlock, OnDisk;
      WrapsMeans(off0, |src|);
      DinodeCount(g, disk, dinodes, |inodes|, logged);
      var n := |src|;
      r := -1;
      if off0 > inodes[i].size || Wraps(off0, n) {
        return true, -1;
      }
      if off0 + n > MAXBYTES {
        return true, -1;
      }
      ghost var c0 := File(i);
      ContentsAre(g, S(), own, i);
      ghost var data, maps, rounds, allocs;
      ok, data, maps, rounds, allocs := WriteLoop(i, src, off0, c0);
      if !ok {
        return;
      }
      r := n;
      ghost var s1, log1 := S(), logged;
      FinishWritei(i, n, off0 + n, Max(inodes[i].size, off0 + n), Overwrite(c0, off0, src));
      FinishWrite(g, old(S()), old(own), s1, S(), own, i, Overwrite(c0, off0, src));
      if old(logged) == {} && n <= CHUNK {
        ChunkBudget(log1, data, maps, old(inodes)[i].addrs[NDIRECT], s1.inodes[i], off0, n, rounds, allocs,
              InodeBlock(g, i));
        SubsetCard(logged, log1 + {InodeBlock(g, i)});
      }
    }

    /** itrunc's first loop, over the direct blocks. */
    method FreeDirect(i: nat, ghost s0: St)
      requires Valid() && i < |inodes| && s0 == S()
      modifies this`disk, this`inodes, this`logged
      ensures Wrote(g, old(disk), old(logged), disk, logged)
      ensures |disk| == g.size && forall b :: g.datastart <= b < g.size ==> disk[b] == s0.disk[b]
      ensures Mapped(g, disk, Dropped(own, i, NDIRECT, 0), {})
      ensures |inodes| == |s0.inodes| && forall j :: 0 <= j < |inodes| && j != i ==> inodes[j] == s0.inodes[j]
      ensures |inodes[i].addrs| == NDIRECT + 1 && inodes[i].addrs[NDIRECT] == s0.inodes[i].addrs[NDIRECT]
      ensures forall k :: 0 <= k < NDIRECT ==> inodes[i].addrs[k] == 0
    {
      hide Owned, Mapped, Sized, Dropped, FreeBit, BitAt, Wrote, OnDisk;
      DropNothing(g, s0, own, i);
      WroteSelf(g, disk, logged);
      var k := 0;
      while k < NDIRECT
        invariant 0 <= k <= NDIRECT && |disk| == g.size && Wrote(g, old(disk), old(logged), disk, logged)
        invariant forall b :: g.datastart <= b < g.size ==> disk[b] == s0.disk[b]
        invariant Mapped(g, disk, Dropped(own, i, k, 0), {})
        invariant |inodes| == |s0.inodes| && forall j :: 0 <= j < |inodes| && j != i ==> inodes[j] == s0.inodes[j]
        invariant |inodes[i].addrs| == NDIRECT + 1
        invariant forall x :: 0 <= x < k ==> inodes[i].addrs[x] == 0
        invariant forall x :: k <= x <= NDIRECT ==> inodes[i].addrs[x] == s0.inodes[i].addrs[x]
      {
        DropSlot(g, s0, own, disk, i, k, 0, k + 1, 0, k);
        if inodes[i].addrs[k] != 0 {
          FreeData(g, disk, inodes[i].addrs[k]);
          var ok := FreeLogged(inodes[i].addrs[k], old(disk), old(logged));
          inodes := inodes[i := inodes[i].(addrs := inodes[i].addrs[k := 0])];
        }
        k := k + 1;
      }
    }

    /** itrunc's second loop, over the entries of the indirect block. */
    method FreeEntries(i: nat, ghost s0: St)
      requires Inv(g, s0, own) && i < |s0.inodes| && s0.inodes[i].addrs[NDIRECT] != 0 && i < |inodes|
      requires |inodes[i].addrs| == NDIRECT + 1 && inodes[i].addrs[NDIRECT] == s0.inodes[i].addrs[NDIRECT]
      requires |disk| == g.size && forall b :: g.datastart <= b < g.size ==> disk[b] == s0.disk[b]
      requires Mapped(g, disk, Dropped(own, i, NDIRECT, 0), {})
      modifies this`disk, this`logged
      ensures |disk| == g.size && forall b :: g.datastart <= b < g.size ==> disk[b] == s0.disk[b]
      ensures Mapped(g, disk, Dropped(own, i, NDIRECT, NINDIRECT), {})
      ensures Wrote(g, old(disk), old(logged), disk, logged)
    {
      hide Owned, Mapped, Sized, Dropped, FreeBit, BitAt, WordAt, Wrote;
      WroteSelf(g, disk, logged);
      IndirectOwned(g, s0, own, i);
      var bp := disk[inodes[i].addrs[NDIRECT]];
      var j := 0;
      while j < NINDIRECT
        invariant 0 <= j <= NINDIRECT && |disk| == g.size && Wrote(g, old(disk), old(logged), disk, logged)
        invariant forall b :: g.datastart <= b < g.size ==> disk[b] == s0.disk[b]
        invariant Mapped(g, disk, Dropped(own, i, NDIRECT, j), {})
      {
        assert Ref(g, s0, i, NDIRECT + 1 + j) == WordAt(bp, j);
        DropSlot(g, s0, own, disk, i, NDIRECT, j, NDIRECT, j + 1, NDIRECT + 1 + j);
        var a := WordAt(bp, j);
        if a != 0 {
          FreeData(g, disk, a);
          var ok := FreeLogged(a, old(disk), old(logged));
        }
        j := j + 1;
      }
    }

    /** itrunc. */
    method Itrunc(i: nat) returns (ok: bool)
      requires Valid() && i < |inodes|
      modifies this`disk, this`inodes, this`dinodes, this`logged, this`own
      ensures ok && Valid() && |inodes| == |old(inodes)| && dinodes == old(dinodes)[i := inodes[i]]
      ensures Framed(old(disk), old(logged), disk, logged)
      ensures OthersKept(g, old(S()), S(), i) && FileIs(g, S(), i, 0, []) && inodes[i].size == 0
      ensures own == Dropped(old(own), i, NDIRECT + 1, NINDIRECT)
      ensures File(i) == [] && inodes[i].addrs == seq(NDIRECT + 1, _ => 0)
      ensures forall j :: 0 <= j < |inodes| && j != i ==> inodes[j] == old(inodes)[j] && File(j) == old(File(j))
    {
      hide Owned, Mapped, Sized, Contents, FileIs, OthersKept, Dropped, FreeBit, BitAt, Ref, OnDisk, Wrote;
      ghost var s0 := S();
      FreeDirect(i, s0);
      ok := true;
      if inodes[i].addrs[NDIRECT] != 0 {
        ghost var d1, log1 := disk, logged;
        FreeEntries(i, s0);
        WroteTrans(g, old(disk), old(logged), d1, log1, disk, logged);
        DropSlot(g, s0, own, disk, i, NDIRECT, NINDIRECT, NDIRECT + 1, NINDIRECT, NDIRECT);
        DirectRef(g, s0, i);
        FreeData(g, disk, inodes[i].addrs[NDIRECT]);
        ok := FreeLogged(inodes[i].addrs[NDIRECT], old(disk), old(logged));
        inodes := inodes[i := inodes[i].(addrs := inodes[i].addrs[NDIRECT := 0])];
      } else {
        NoIndirect(g, s0, own, i);
      }
      inodes := inodes[i := inodes[i].(size := 0)];
      Truncated(g, s0, own, disk, i, inodes[i]);
      assert inodes == s0.inodes[i := inodes[i]];
      WroteOnDisk(g, old(disk), old(logged), disk, logged, dinodes, |inodes|);
      ghost var own0, log1 := own, logged;
      own := Dropped(own0, i, NDIRECT + 1, NINDIRECT);
      ghost var s1 := S();
      Iupdate(i);
      FramedTrans(g, old(disk), old(logged), s1.disk, log1, disk, logged);
      FilesOthers(g, s1, S(), i);
      OthersTrans(g, s0, s1, S(), i);
      FinishWrite(g, s0, own0, s1, S(), own, i, []);
    }

    /** bfree in a transaction that began with disk d0 and the log blocks log0. */
    method FreeLogged(b: nat, ghost d0: seq<Block>, ghost log0: set<nat>) returns (ok: bool)
      requires g.Ok() && |disk| == g.size && b < g.size && BitAt(g, disk, b) && Wrote(g, d0, log0, disk, logged)
      modifies this`disk, this`logged
      ensures ok && disk == FreeBit(g, old(disk), b) && Wrote(g, d0, log0, disk, logged)
    {
      hide FreeBit, BitAt, Wrote;
      WroteFree(g, disk, logged, b);
      ok := Bfree(b);
      WroteTrans(g, d0, log0, old(disk), old(logged), disk, logged);
    }

    /** filewrite on an inode: chunks of at most CHUNK bytes, each its own transaction.  `done`
        bytes were written and f->off moved by as much; `chunks` are the sets of blocks that
        the transactions logged. */
    method Filewrite(i: nat, addr: seq<Byte>, off0: nat) returns (ok: bool, r: int, done: nat,
          ghost chunks: seq<set<nat>>)
      requires Valid() && i < |inodes| && dinodes[i] == inodes[i] && off0 < UINT && |addr| < UINT / 2
      modifies this`disk, this`inodes, this`dinodes, this`logged, this`own
      ensures forall t :: 0 <= t < |chunks| ==> |chunks[t]| <= MAXOPBLOCKS
      ensures !ok ==> Full(g, disk)
      ensures ok ==> Valid() && |inodes| == |old(inodes)| && dinodes == old(dinodes)[i := inodes[i]]
      ensures ok ==> r == (if done == |addr| then |addr| else -1)
      ensures ok && off0 > old(inodes)[i].size ==> done == 0 && S() == old(S())
      ensures ok && off0 <= old(inodes)[i].size ==>
                && done <= |addr|
                && (done < |addr| ==> off0 + Min(done + CHUNK, |addr|) > MAXBYTES)
                && File(i) == Overwrite(old(File(i)), off0, addr[..done])
      ensures ok ==> forall j :: 0 <= j < |inodes| && j != i ==> inodes[j] == old(inodes)[j] && File(j) == old(File(j))
    {
      hide Owned, Mapped, Sized, Contents, Overwrite, OnDisk, Framed;
      DinodeCount(g, disk, dinodes, |inodes|, logged);
      var n := |addr|;
      ghost var c0 := File(i);
      chunks, done, r, ok := [], 0, 0, true;
      var off := off0;
      if off0 <= inodes[i].size { OverwriteNone(c0, off0, addr); }
      while done < n
        invariant ok && 0 <= done <= n && off == off0 + done && off < UINT
        invariant Valid() && |inodes| == |old(inodes)| && dinodes == old(dinodes)[i := inodes[i]]
        invariant forall t :: 0 <= t < |chunks| ==> |chunks[t]| <= MAXOPBLOCKS
        invariant off0 > old(inodes)[i].size ==> done == 0 && S() == old(S()) && own == old(own)
        invariant off0 <= old(inodes)[i].size ==> File(i) == Overwrite(c0, off0, addr[..done]) && off <= inodes[i].size
        invariant forall j :: 0 <= j < |inodes| && j != i ==> inodes[j] == old(inodes)[j] && File(j) == old(File(j))
      {
        var n1 := n - done;
        if n1 > CHUNK {
          n1 := CHUNK;
        }
        FreshLog(g, disk, dinodes, |inodes|, logged);
        logged := {};
        ok, r := Writei(i, addr[done..done + n1], off);
        if !ok {
          return;
        }
        chunks := chunks + [logged];
        if r < 0 {
          break;
        }
        assert r == n1;   // no "short filewrite"
        OverwriteNext(c0, off0, addr, done, n1);
        done, off := done + r, off + r;
      }
      r := if done == n then n else -1;
    }
  }
}
