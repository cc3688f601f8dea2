/** The inode and block layer of kernel/fs.c as a value: a disk, the inodes, and who owns which
    block.  The lemmas say what each elementary update of the code (mark a block in use, free
    it, attach it to an inode or to an indirect block, overwrite a data block) does to the
    block numbers an inode refers to, to the free map and to the contents of files. */
module FsState {
  import opened Common
  import opened FsBlocks

  const NDIRECT: nat := 12
  const MAXFILE: nat := NDIRECT + NINDIRECT
  const SLOTS: nat := NDIRECT + 1 + NINDIRECT
  const MAXBYTES: nat := MAXFILE * BSIZE
  const DWORDS: nat := 16     // words of an inode on disk
  const IPB: nat := 8         // inodes in a block of 128 words

  /** The superblock fields that matter here, and the first data block. */
  datatype Geometry = Geometry(size: nat, inodestart: nat, bmapstart: nat, datastart: nat) {
    predicate Ok() {
      && inodestart < bmapstart
      && size > 0 && bmapstart + (size - 1) / BPB < datastart <= size < UINT
    }

    /** BBLOCK: the free-map block that holds the bit of block b. */
    function MapBlock(b: nat): nat {
      bmapstart + b / BPB
    }
  }

  /** size and addrs; addrs[NDIRECT] is the indirect block, 0 means no block. */
  datatype Inode = Inode(size: nat, addrs: seq<nat>)

  datatype St = St(disk: seq<Block>, inodes: seq<Inode>)

  /** Which inode refers to a block, and from which slot. */
  type Owners = map<nat, (nat, nat)>

  ghost predicate Shape(g: Geometry, s: St) {
    && g.Ok() && |s.disk| == g.size
    && forall i :: 0 <= i < |s.inodes| ==> |s.inodes[i].addrs| == NDIRECT + 1 && s.inodes[i].addrs[NDIRECT] < g.size
  }

  /** The block number in slot k of inode i: the direct blocks, the indirect block, then the
      entries of the indirect block. */
  ghost function Ref(g: Geometry, s: St, i: nat, k: nat): (b: nat)
    requires Shape(g, s) && i < |s.inodes| && k < SLOTS
  {
    var a := s.inodes[i].addrs;
    if k <= NDIRECT then a[k]
    else if a[NDIRECT] == 0 then 0
    else WordAt(s.disk[a[NDIRECT]], k - NDIRECT - 1)
  }

  /** The slot of the bn-th block of a file. */
  function SlotOf(bn: nat): (k: nat)
    ensures k != NDIRECT && (bn < MAXFILE ==> k < SLOTS)
  {
    if bn < NDIRECT then bn else bn + 1
  }

  predicate BitAt(g: Geometry, d: seq<Block>, b: nat)
    requires g.Ok() && |d| == g.size && b < g.size
  {
    MapFits(g, b);
    Bit(d[g.MapBlock(b)][b % BPB / 8], b % 8)
  }

  lemma {:induction false} MapFits(g: Geometry, b: nat)
    requires g.Ok() && b < g.size
    ensures g.MapBlock(b) < g.datastart && b % BPB / 8 < BSIZE
  {
  }

  /** No block is referred to twice, and every block referred to is a data block. */
  ghost predicate Owned(g: Geometry, s: St, own: Owners)
    requires Shape(g, s)
  {
    && (forall i, k :: 0 <= i < |s.inodes| && 0 <= k < SLOTS && Ref(g, s, i, k) != 0 ==>
          Ref(g, s, i, k) in own && own[Ref(g, s, i, k)] == (i, k))
    && (forall b :: b in own ==>
          && g.datastart <= b < g.size
          && own[b].0 < |s.inodes| && own[b].1 < SLOTS && Ref(g, s, own[b].0, own[b].1) == b)
  }

  /** The free map marks exactly the metadata, the owned blocks, and `extra`. */
  ghost predicate Mapped(g: Geometry, d: seq<Block>, own: Owners, extra: set<nat>)
    requires g.Ok() && |d| == g.size
  {
    forall b :: 0 <= b < g.size ==> (BitAt(g, d, b) <==> b < g.datastart || b in own || b in extra)
  }

  /** Every block of inode i that lies (in part) below `limit` is allocated. */
  ghost predicate Filled(g: Geometry, s: St, i: nat, limit: nat)
    requires Shape(g, s) && i < |s.inodes|
  {
    forall bn :: 0 <= bn < MAXFILE && bn * BSIZE < limit ==> Ref(g, s, i, SlotOf(bn)) != 0
  }

  ghost predicate Sized(g: Geometry, s: St)
    requires Shape(g, s)
  {
    forall i :: 0 <= i < |s.inodes| ==> s.inodes[i].size <= MAXBYTES && Filled(g, s, i, s.inodes[i].size)
  }

  ghost predicate InvX(g: Geometry, s: St, own: Owners, extra: set<nat>) {
    Shape(g, s) && Owned(g, s, own) && Mapped(g, s.disk, own, extra) && Sized(g, s)
  }

  /** The file system invariant: block ownership, the free map, and no holes below the size. */
  ghost predicate Inv(g: Geometry, s: St, own: Owners) {
    InvX(g, s, own, {})
  }

  /** Byte x of file i. */
  ghost function ByteAt(g: Geometry, s: St, i: nat, x: nat): Byte
    requires Shape(g, s) && i < |s.inodes| && x < MAXBYTES
  {
    var b := Ref(g, s, i, SlotOf(x / BSIZE));
    if b < g.size then s.disk[b][x % BSIZE] else 0
  }


  /** The contents of file i. */
  ghost function Contents(g: Geometry, s: St, own: Owners, i: nat): (r: seq<Byte>)
    requires Inv(g, s, own) && i < |s.inodes|
    ensures |r| == s.inodes[i].size
  {
    seq(s.inodes[i].size, x requires 0 <= x < s.inodes[i].size => ByteAt(g, s, i, x))
  }

  // ---- The free map ----

  function MarkBit(g: Geometry, d: seq<Block>, b: nat): (r: seq<Block>)
    requires g.Ok() && |d| == g.size && b < g.size
    ensures |r| == |d|
  {
    MapFits(g, b);
    var m, y := g.MapBlock(b), b % BPB / 8;
    ByteFits(d[m][y], b % 8);
    d[m := d[m][y := SetBit(d[m][y], b % 8)]]
  }

  function FreeBit(g: Geometry, d: seq<Block>, b: nat): (r: seq<Block>)
    requires g.Ok() && |d| == g.size && b < g.size
    ensures |r| == |d|
  {
    MapFits(g, b);
    var m, y := g.MapBlock(b), b % BPB / 8;
    ByteFits(d[m][y], b % 8);
    d[m := d[m][y := ClearBit(d[m][y], b % 8)]]
  }

  lemma {:induction false} BitIndex(b: nat)
    ensures b == BPB * (b / BPB) + 8 * (b % BPB / 8) + b % 8
  {
    var r := b % BPB;
    var q := BSIZE * (b / BPB) + r / 8;
    assert b == 8 * q + r % 8;
    assert b % 8 == r % 8;
  }

  lemma {:induction false} SameBit(b: nat, c: nat)
    requires b / BPB == c / BPB && b % BPB / 8 == c % BPB / 8 && b % 8 == c % 8
    ensures b == c
  {
    BitIndex(b);
    BitIndex(c);
  }

  /** Marking or freeing one block changes its bit and no other, and only one map block. */
  lemma {:induction false} OneBit(g: Geometry, d: seq<Block>, b: nat, c: nat)
    requires g.Ok() && |d| == g.size && b < g.size && c < g.size
    ensures BitAt(g, MarkBit(g, d, b), c) <==> c == b || BitAt(g, d, c)
    ensures BitAt(g, FreeBit(g, d, b), c) <==> c != b && BitAt(g, d, c)
    ensures c >= g.datastart ==> MarkBit(g, d, b)[c] == d[c] && FreeBit(g, d, b)[c] == d[c]
  {
    hide Bit, SetBit, ClearBit;
    MapFits(g, b);
    MapFits(g, c);
    ByteFits(d[g.MapBlock(b)][b % BPB / 8], b % 8);
    if b / BPB == c / BPB && b % BPB / 8 == c % BPB / 8 {
      BitOps(d[g.MapBlock(b)][b % BPB / 8], b % 8, c % 8);
      if b % 8 == c % 8 { SameBit(b, c); }
    }
  }

  // ---- Block references ----

  /** The references do not change if the inodes and the indirect blocks do not. */
  lemma {:induction false} RefsKept(g: Geometry, s: St, t: St)
    requires Shape(g, s) && Shape(g, t) && t.inodes == s.inodes
    requires forall i :: 0 <= i < |s.inodes| && s.inodes[i].addrs[NDIRECT] != 0 ==>
               t.disk[s.inodes[i].addrs[NDIRECT]] == s.disk[s.inodes[i].addrs[NDIRECT]]
    ensures forall i, k :: 0 <= i < |s.inodes| && 0 <= k < SLOTS ==> Ref(g, t, i, k) == Ref(g, s, i, k)
  {
    hide WordAt;
  }

  /** The indirect block of an inode is the block it owns through slot NDIRECT. */
  lemma {:induction false} IndirectOwned(g: Geometry, s: St, own: Owners, i: nat)
    requires Shape(g, s) && Owned(g, s, own) && i < |s.inodes| && s.inodes[i].addrs[NDIRECT] != 0
    ensures var b := s.inodes[i].addrs[NDIRECT];
            b in own && own[b] == (i, NDIRECT) && g.datastart <= b < g.size
  {
    assert Ref(g, s, i, NDIRECT) == s.inodes[i].addrs[NDIRECT];
  }

  /** Owned, Sized and Filled only depend on the references and the sizes. */
  lemma {:induction false} SameRefs(g: Geometry, s: St, t: St, own: Owners)
    requires Shape(g, s) && Shape(g, t) && t.inodes == s.inodes
    requires forall i, k :: 0 <= i < |s.inodes| && 0 <= k < SLOTS ==> Ref(g, t, i, k) == Ref(g, s, i, k)
    ensures Owned(g, s, own) ==> Owned(g, t, own)
    ensures Sized(g, s) ==> Sized(g, t)
    ensures forall i, limit :: 0 <= i < |s.inodes| && 0 <= limit && Filled(g, s, i, limit) ==> Filled(g, t, i, limit)
  {
    hide Ref, Shape;
  }

  /** t is s with some blocks overwritten that no inode uses as an indirect block. */
  lemma {:induction false} DiskOnly(g: Geometry, s: St, t: St, own: Owners)
    requires Shape(g, s) && Owned(g, s, own) && Sized(g, s)
    requires t.inodes == s.inodes && |t.disk| == |s.disk|
    requires forall b :: b in own && own[b].1 == NDIRECT ==> b < |s.disk| && t.disk[b] == s.disk[b]
    ensures Shape(g, t) && Owned(g, t, own) && Sized(g, t)
    ensures forall i, k :: 0 <= i < |s.inodes| && 0 <= k < SLOTS ==> Ref(g, t, i, k) == Ref(g, s, i, k)
    ensures forall i, limit :: 0 <= i < |s.inodes| && 0 <= limit && Filled(g, s, i, limit) ==> Filled(g, t, i, limit)
  {
    hide Owned, Sized, Filled, Ref;
    forall i | 0 <= i < |s.inodes| && s.inodes[i].addrs[NDIRECT] != 0
      ensures t.disk[s.inodes[i].addrs[NDIRECT]] == s.disk[s.inodes[i].addrs[NDIRECT]]
    {
      IndirectOwned(g, s, own, i);
    }
    RefsKept(g, s, t);
    SameRefs(g, s, t, own);
  }

  /** balloc of block b: marked in use, zeroed, and not referred to by anyone. */
  lemma {:induction false} AllocBlock(g: Geometry, s: St, own: Owners, b: nat)
    requires Inv(g, s, own) && b < g.size && !BitAt(g, s.disk, b)
    ensures var t := s.(disk := MarkBit(g, s.disk, b)[b := Zeroes()]);
            && InvX(g, t, own, {b})
            && b >= g.datastart && b !in own
            && (forall c :: g.datastart <= c < g.size && c != b ==> t.disk[c] == s.disk[c])
            && (forall i, k :: 0 <= i < |s.inodes| && 0 <= k < SLOTS ==> Ref(g, t, i, k) == Ref(g, s, i, k))
            && (forall i, limit :: 0 <= i < |s.inodes| && 0 <= limit && Filled(g, s, i, limit) ==>
                  Filled(g, t, i, limit))
  {
    hide Owned, Sized, Filled, Ref, MarkBit, Bit;
    var t := s.(disk := MarkBit(g, s.disk, b)[b := Zeroes()]);
    assert b >= g.datastart && b !in own;
    forall c | 0 <= c < g.size
      ensures BitAt(g, t.disk, c) <==> c == b || BitAt(g, s.disk, c)
      ensures c >= g.datastart && c != b ==> t.disk[c] == s.disk[c]
    {
      OneBit(g, s.disk, b, c);
      MapFits(g, c);
    }
    OwnersInData(g, s, own);
    DiskOnly(g, s, t, own);
  }

  lemma {:induction false} OwnersInData(g: Geometry, s: St, own: Owners)
    requires Shape(g, s) && Owned(g, s, own)
    ensures forall b :: b in own ==> g.datastart <= b < g.size
    ensures forall b :: b in own ==> own[b].0 < |s.inodes| && own[b].1 < SLOTS
  {
    hide Ref;
  }

  /** The references of t are those of s, except that slot k of inode i now holds b. */
  ghost predicate AddsRef(g: Geometry, s: St, t: St, i: nat, k: nat, b: nat)
    requires Shape(g, s) && Shape(g, t) && i < |s.inodes| && k < SLOTS
  {
    && |t.inodes| == |s.inodes|
    && (forall j :: 0 <= j < |s.inodes| ==> t.inodes[j].size == s.inodes[j].size)
    && (forall j, l :: 0 <= j < |s.inodes| && 0 <= l < SLOTS ==>
          Ref(g, t, j, l) == if j == i && l == k then b else Ref(g, s, j, l))
  }

  lemma {:induction false} AddedOwned(g: Geometry, s: St, t: St, own: Owners, i: nat, k: nat, b: nat)
    requires Shape(g, s) && Shape(g, t) && i < |s.inodes| && k < SLOTS && AddsRef(g, s, t, i, k, b)
    requires Owned(g, s, own) && b !in own && 0 < g.datastart <= b < g.size && Ref(g, s, i, k) == 0
    ensures Owned(g, t, own[b := (i, k)])
  {
    hide Ref, Shape;
    var own2 := own[b := (i, k)];
    forall j, l | 0 <= j < |t.inodes| && 0 <= l < SLOTS && Ref(g, t, j, l) != 0
      ensures Ref(g, t, j, l) in own2 && own2[Ref(g, t, j, l)] == (j, l)
    {
      if !(j == i && l == k) { assert Ref(g, t, j, l) == Ref(g, s, j, l); }
    }
    forall c | c in own2 ensures Ref(g, t, own2[c].0, own2[c].1) == c {
      if c != b { assert own2[c] == own[c] && Ref(g, s, own[c].0, own[c].1) == c; }
    }
  }

  lemma {:induction false} AddedSized(g: Geometry, s: St, t: St, i: nat, k: nat, b: nat)
    requires Shape(g, s) && Shape(g, t) && i < |s.inodes| && k < SLOTS && AddsRef(g, s, t, i, k, b) && b != 0
    ensures Sized(g, s) ==> Sized(g, t)
    ensures forall j, limit :: 0 <= j < |s.inodes| && 0 <= limit && Filled(g, s, j, limit) ==> Filled(g, t, j, limit)
  {
    hide Ref, Shape;
  }

  lemma {:induction false} AddRef(g: Geometry, s: St, t: St, own: Owners, i: nat, k: nat, b: nat)
    requires InvX(g, s, own, {b}) && Shape(g, t) && i < |s.inodes| && k < SLOTS && AddsRef(g, s, t, i, k, b)
    requires b !in own && g.datastart <= b < g.size && b != 0 && Ref(g, s, i, k) == 0
    requires forall c :: 0 <= c < g.datastart ==> t.disk[c] == s.disk[c]
    ensures Inv(g, t, own[b := (i, k)])
    ensures forall j, limit :: 0 <= j < |s.inodes| && 0 <= limit && Filled(g, s, j, limit) ==> Filled(g, t, j, limit)
  {
    hide Ref, Owned, Sized, Filled, AddsRef, Bit;
    AddedOwned(g, s, t, own, i, k, b);
    AddedSized(g, s, t, i, k, b);
    forall c | 0 <= c < g.size ensures BitAt(g, t.disk, c) == BitAt(g, s.disk, c) {
      MapFits(g, c);
      assert t.disk[g.MapBlock(c)] == s.disk[g.MapBlock(c)];
    }
  }

  /** bmap stores a new block in ip->addrs; a new indirect block has only zero entries. */
  lemma {:induction false} AttachDirect(g: Geometry, s: St, own: Owners, i: nat, k: nat, b: nat)
    requires InvX(g, s, own, {b}) && i < |s.inodes| && k <= NDIRECT
    requires b !in own && g.datastart <= b < g.size && s.inodes[i].addrs[k] == 0
    requires k == NDIRECT ==> s.disk[b] == Zeroes()
    ensures var t := s.(inodes := s.inodes[i := s.inodes[i].(addrs := s.inodes[i].addrs[k := b])]);
            && Inv(g, t, own[b := (i, k)]) && AddsRef(g, s, t, i, k, b)
            && (forall j, limit :: 0 <= j < |s.inodes| && 0 <= limit && Filled(g, s, j, limit) ==>
                  Filled(g, t, j, limit))
  {
    hide Owned, Sized, Filled, Mapped;
    var t := s.(inodes := s.inodes[i := s.inodes[i].(addrs := s.inodes[i].addrs[k := b])]);
    if k == NDIRECT {
      forall j | 0 <= j < NINDIRECT ensures WordAt(t.disk[b], j) == 0 { WordZero(j); }
    }
    AttachedDirect(g, s, t, i, k, b);
    AddRef(g, s, t, own, i, k, b);
  }

  lemma {:induction false} AttachedDirect(g: Geometry, s: St, t: St, i: nat, k: nat, b: nat)
    requires Shape(g, s) && i < |s.inodes| && k <= NDIRECT && b < g.size && s.inodes[i].addrs[k] == 0
    requires t == s.(inodes := s.inodes[i := s.inodes[i].(addrs := s.inodes[i].addrs[k := b])])
    requires k == NDIRECT ==> forall j :: 0 <= j < NINDIRECT ==> WordAt(t.disk[b], j) == 0
    ensures Shape(g, t) && AddsRef(g, s, t, i, k, b)
  {
    hide WordAt;
  }

  /** bmap stores a new block in the indirect block. */
  lemma {:induction false} AttachEntry(g: Geometry, s: St, own: Owners, i: nat, k: nat, b: nat)
    requires InvX(g, s, own, {b}) && i < |s.inodes| && NDIRECT < k < SLOTS
    requires b !in own && g.datastart <= b < g.size
    requires s.inodes[i].addrs[NDIRECT] != 0 && Ref(g, s, i, k) == 0
    ensures var ind := s.inodes[i].addrs[NDIRECT];
            var t := s.(disk := s.disk[ind := PutWord(s.disk[ind], k - NDIRECT - 1, b)]);
            && ind in own && own[ind] == (i, NDIRECT)
            && Inv(g, t, own[b := (i, k)]) && AddsRef(g, s, t, i, k, b)
            && (forall j, limit :: 0 <= j < |s.inodes| && 0 <= limit && Filled(g, s, j, limit) ==>
                  Filled(g, t, j, limit))
  {
    hide Owned, Sized, Filled, Mapped, WordAt, PutWord, Ref, AddsRef;
    var ind := s.inodes[i].addrs[NDIRECT];
    var t := s.(disk := s.disk[ind := PutWord(s.disk[ind], k - NDIRECT - 1, b)]);
    IndirectOwned(g, s, own, i);
    forall j | 0 <= j < |s.inodes| && j != i ensures s.inodes[j].addrs[NDIRECT] != ind {
      if s.inodes[j].addrs[NDIRECT] != 0 { IndirectOwned(g, s, own, j); }
    }
    AttachedEntry(g, s, t, i, k, b);
    AddRef(g, s, t, own, i, k, b);
  }

  lemma {:induction false} AttachedEntry(g: Geometry, s: St, t: St, i: nat, k: nat, b: nat)
    requires Shape(g, s) && i < |s.inodes| && NDIRECT < k < SLOTS && b < g.size
    requires s.inodes[i].addrs[NDIRECT] != 0
    requires var ind := s.inodes[i].addrs[NDIRECT];
             && t == s.(disk := s.disk[ind := PutWord(s.disk[ind], k - NDIRECT - 1, b)])
             && forall j :: 0 <= j < |s.inodes| && j != i ==> s.inodes[j].addrs[NDIRECT] != ind
    ensures Shape(g, t) && AddsRef(g, s, t, i, k, b)
  {
    hide WordAt, PutWord;
    var ind := s.inodes[i].addrs[NDIRECT];
    forall l | NDIRECT < l < SLOTS ensures Ref(g, t, i, l) == if l == k then b else Ref(g, s, i, l) {
      WordPut(s.disk[ind], k - NDIRECT - 1, b, l - NDIRECT - 1);
    }
  }

  /** writei overwrites a data block. */
  lemma {:induction false} OverwriteData(g: Geometry, s: St, own: Owners, b: nat, data: Block)
    requires Inv(g, s, own) && b in own && own[b].1 != NDIRECT
    ensures b < g.size
    ensures var t := s.(disk := s.disk[b := data]);
            && Inv(g, t, own)
            && (forall i, k :: 0 <= i < |s.inodes| && 0 <= k < SLOTS ==> Ref(g, t, i, k) == Ref(g, s, i, k))
            && (forall j, limit :: 0 <= j < |s.inodes| && 0 <= limit && Filled(g, s, j, limit) ==>
                  Filled(g, t, j, limit))
  {
    hide Owned, Sized, Filled, Ref, Bit;
    OwnersInData(g, s, own);
    var t := s.(disk := s.disk[b := data]);
    DiskOnly(g, s, t, own);
    forall c | 0 <= c < g.size ensures BitAt(g, t.disk, c) == BitAt(g, s.disk, c) {
      MapFits(g, c);
      assert t.disk[g.MapBlock(c)] == s.disk[g.MapBlock(c)];
    }
  }

  // ---- Inodes on disk ----

  /** IBLOCK: the block that holds inode i. */
  function InodeBlock(g: Geometry, i: nat): nat {
    i / IPB + g.inodestart
  }

  /** Word k of inode i in its block: type, major, minor and nlink in two words, the size, addrs. */
  function DinodeWord(i: nat, k: nat): (w: nat)
    requires k < DWORDS
    ensures w < NINDIRECT
  {
    i % IPB * DWORDS + k
  }

  function DinodeIn(b: Block, i: nat): (ip: Inode)
    ensures |ip.addrs| == NDIRECT + 1
  {
    Inode(WordAt(b, DinodeWord(i, 2)),
          seq(NDIRECT + 1, k requires 0 <= k <= NDIRECT => WordAt(b, DinodeWord(i, 3 + k))))
  }

  predicate Encodable(ip: Inode) {
    ip.size < UINT && |ip.addrs| == NDIRECT + 1 && forall k :: 0 <= k <= NDIRECT ==> ip.addrs[k] < UINT
  }

  function PutAddrs(b: Block, i: nat, ip: Inode, n: nat): Block
    requires Encodable(ip) && n <= NDIRECT + 1
  {
    if n == 0 then b else PutWord(PutAddrs(b, i, ip, n - 1), DinodeWord(i, 3 + n - 1), ip.addrs[n - 1])
  }

  /** iupdate's stores; the first two words stay, because nothing here changes what they hold. */
  function PutDinode(b: Block, i: nat, ip: Inode): Block
    requires Encodable(ip)
  {
    PutAddrs(PutWord(b, DinodeWord(i, 2), ip.size), i, ip, NDIRECT + 1)
  }

  lemma {:induction false} AddrsPut(b: Block, i: nat, ip: Inode, n: nat, w: nat)
    requires Encodable(ip) && n <= NDIRECT + 1 && w < NINDIRECT
    ensures WordAt(PutAddrs(b, i, ip, n), w) ==
            var k := w - DinodeWord(i, 3); if 0 <= k < n then ip.addrs[k] else WordAt(b, w)
  {
    hide WordAt, PutWord;
    if n > 0 {
      AddrsPut(b, i, ip, n - 1, w);
      WordPut(PutAddrs(b, i, ip, n - 1), DinodeWord(i, 3 + n - 1), ip.addrs[n - 1], w);
    }
  }

  /** Writing an inode to its block and reading the inodes of the block back. */
  lemma {:induction false} DinodePut(b: Block, i: nat, ip: Inode, j: nat)
    requires Encodable(ip)
    ensures DinodeIn(PutDinode(b, i, ip), j) == if j % IPB == i % IPB then ip else DinodeIn(b, j)
  {
    hide WordAt, PutDinode, DinodeWord;
    var r := PutDinode(b, i, ip);
    forall k | 2 <= k < DWORDS
      ensures WordAt(r, DinodeWord(j, k)) ==
              if j % IPB != i % IPB then WordAt(b, DinodeWord(j, k)) else if k == 2 then ip.size else ip.addrs[k - 3]
    {
      DinodePutWord(b, i, ip, j, k);
    }
    assert DinodeIn(r, j).addrs == if j % IPB == i % IPB then ip.addrs else DinodeIn(b, j).addrs;
  }

  lemma {:induction false} DinodePutWord(b: Block, i: nat, ip: Inode, j: nat, k: nat)
    requires Encodable(ip) && 2 <= k < DWORDS
    ensures WordAt(PutDinode(b, i, ip), DinodeWord(j, k)) ==
            if j % IPB != i % IPB then WordAt(b, DinodeWord(j, k)) else if k == 2 then ip.size else ip.addrs[k - 3]
  {
    hide WordAt, PutWord, PutAddrs;
    AddrsPut(PutWord(b, DinodeWord(i, 2), ip.size), i, ip, NDIRECT + 1, DinodeWord(j, k));
    WordPut(b, DinodeWord(i, 2), ip.size, DinodeWord(j, k));
  }

  /** Where an inode is in its block: 64 bytes for each, the size from byte 8 on, the least significant byte
      first, then addrs. */
  lemma {:induction false} DinodeBytes(b: Block, i: nat, k: nat)
    requires k < 13
    ensures var o := 64 * (i % 8);
            var n, a := DinodeIn(b, i).size, DinodeIn(b, i).addrs[k];
            && n % 0x100 == Val(b[o + 8]) && n / 0x100 % 0x100 == Val(b[o + 9])
            && n / 0x100 / 0x100 % 0x100 == Val(b[o + 10]) && n / 0x100 / 0x100 / 0x100 == Val(b[o + 11])
            && a % 0x100 == Val(b[o + 12 + 4 * k]) && a / 0x100 % 0x100 == Val(b[o + 13 + 4 * k])
            && a / 0x100 / 0x100 % 0x100 == Val(b[o + 14 + 4 * k])
            && a / 0x100 / 0x100 / 0x100 == Val(b[o + 15 + 4 * k])
  {
    WordOrder(b, 16 * (i % 8) + 2);
    WordOrder(b, 16 * (i % 8) + 3 + k);
  }

  /** The bit of block b in the free map: bits are numbered from the least significant, bytes and blocks
      in order. */
  lemma {:induction false} MapBit(g: Geometry, d: seq<Block>, b: nat)
    requires g.Ok() && |d| == g.size && b < g.size && !BitAt(g, d, b)
    ensures var m, y := g.bmapstart + b / 4096, b % 4096 / 8;
            && m < |d| && d[m][y] + Pow2(b % 8) < 256
            && MarkBit(g, d, b) == d[m := d[m][y := d[m][y] + Pow2(b % 8)]]
  {
    hide Bit, SetBit;
    MapFits(g, b);
    ByteFits(d[g.MapBlock(b)][b % BPB / 8], b % 8);
    BitWeight(d[g.MapBlock(b)][b % BPB / 8], b % 8);
  }

  /** The inode blocks hold these inodes. */
  ghost predicate Encodes(g: Geometry, d: seq<Block>, dinodes: seq<Inode>) {
    && g.Ok() && |d| == g.size && |dinodes| <= (g.bmapstart - g.inodestart) * IPB
    && forall i :: 0 <= i < |dinodes| ==> InodeBlock(g, i) < |d| && DinodeIn(d[InodeBlock(g, i)], i) == dinodes[i]
  }

  lemma {:induction false} InodeBlockFits(g: Geometry, i: nat)
    requires g.Ok() && i < (g.bmapstart - g.inodestart) * IPB
    ensures g.inodestart <= InodeBlock(g, i) < g.bmapstart < g.datastart <= g.size
  {
  }

  lemma {:induction false} EncodesKept(g: Geometry, d: seq<Block>, d2: seq<Block>, dinodes: seq<Inode>)
    requires Encodes(g, d, dinodes) && |d2| == |d| && forall b :: 0 <= b < g.bmapstart && b < |d| ==> d2[b] == d[b]
    ensures Encodes(g, d2, dinodes)
  {
    hide DinodeIn;
    forall i | 0 <= i < |dinodes| ensures d2[InodeBlock(g, i)] == d[InodeBlock(g, i)] { InodeBlockFits(g, i); }
  }

  /** iupdate changes one inode on disk. */
  lemma {:induction false} EncodesPut(g: Geometry, d: seq<Block>, dinodes: seq<Inode>, i: nat, ip: Inode)
    requires Encodes(g, d, dinodes) && i < |dinodes| && Encodable(ip)
    ensures var b := InodeBlock(g, i); Encodes(g, d[b := PutDinode(d[b], i, ip)], dinodes[i := ip])
  {
    hide DinodeIn, PutDinode;
    var b := InodeBlock(g, i);
    var d2 := d[b := PutDinode(d[b], i, ip)];
    forall j | 0 <= j < |dinodes| ensures DinodeIn(d2[InodeBlock(g, j)], j) == dinodes[i := ip][j] {
      if InodeBlock(g, j) == b {
        DinodePut(d[b], i, ip, j);
        assert j % IPB == i % IPB ==> j == i;
      }
    }
  }

  /** What an inode refers to can be written to disk. */
  lemma {:induction false} InodeEncodable(g: Geometry, s: St, own: Owners, i: nat)
    requires Inv(g, s, own) && i < |s.inodes|
    ensures Encodable(s.inodes[i])
  {
    hide Mapped, WordAt;
    forall k | 0 <= k <= NDIRECT ensures s.inodes[i].addrs[k] < UINT {
      assert Ref(g, s, i, k) == s.inodes[i].addrs[k];
    }
  }
}
