/** The three views that kernel/fs.c takes of a 512-byte block: bytes of a file, bits of the
    free map, and little-endian block numbers of an indirect block. */
module FsBlocks {
  import opened Common

  const BSIZE: nat := 512
  const BPB: nat := 8 * BSIZE
  const NINDIRECT: nat := BSIZE / 4

  type Byte = x: int | 0 <= x < 256
  type Block = b: seq<Byte> | |b| == BSIZE witness seq(BSIZE, _ => 0)

  function Zeroes(): Block {
    seq(BSIZE, _ => 0)
  }

  // ---- Bits ----

  /** (x & (1 << k)) != 0 */
  predicate Bit(x: nat, k: nat) {
    if k == 0 then x % 2 == 1 else Bit(x / 2, k - 1)
  }

  /** x | (1 << k) */
  function SetBit(x: nat, k: nat): (r: nat) {
    if k == 0 then x - x % 2 + 1 else 2 * SetBit(x / 2, k - 1) + x % 2
  }

  /** x & ~(1 << k) */
  function ClearBit(x: nat, k: nat): (r: nat) {
    if k == 0 then x - x % 2 else 2 * ClearBit(x / 2, k - 1) + x % 2
  }

  lemma {:induction false} BitOps(x: nat, k: nat, j: nat)
    ensures Bit(SetBit(x, k), j) <==> j == k || Bit(x, j)
    ensures Bit(ClearBit(x, k), j) <==> j != k && Bit(x, j)
  {
    var s, c := SetBit(x, k), ClearBit(x, k);
    if k == 0 {
      assert s / 2 == x / 2 == c / 2;
    } else {
      assert s / 2 == SetBit(x / 2, k - 1) && s % 2 == x % 2;
      assert c / 2 == ClearBit(x / 2, k - 1) && c % 2 == x % 2;
      if j > 0 { BitOps(x / 2, k - 1, j - 1); }
    }
  }

  /** Bit k has the weight 2^k. */
  lemma {:induction false} BitWeight(x: nat, k: nat)
    ensures SetBit(x, k) == if Bit(x, k) then x else x + Pow2(k)
    ensures ClearBit(x, k) == if Bit(x, k) then x - Pow2(k) else x
  {
    if k > 0 { BitWeight(x / 2, k - 1); }
  }

  lemma {:induction false} BitOpsFit(x: nat, k: nat, n: nat)
    requires k < n && x < Pow2(n)
    ensures SetBit(x, k) < Pow2(n) && ClearBit(x, k) < Pow2(n)
  {
    if k > 0 {
      BitOpsFit(x / 2, k - 1, n - 1);
    }
  }

  lemma {:induction false} ByteFits(x: Byte, k: nat)
    requires k < 8
    ensures SetBit(x, k) < 256 && ClearBit(x, k) < 256
  {
    assert Pow2(8) == 256 by {
      assert Pow2(2) == 4 && Pow2(4) == 16 && Pow2(6) == 64;
    }
    BitOpsFit(x, k, 8);
  }

  // ---- Words ----

  function Val(x: Byte): nat { x }

  function WordAt(b: Block, i: nat): (w: nat)
    requires i < NINDIRECT
    ensures w < UINT
  {
    Val(b[4 * i]) + 0x100 * Val(b[4 * i + 1]) + 0x1_0000 * Val(b[4 * i + 2]) + 0x100_0000 * Val(b[4 * i + 3])
  }

  function Byte0(w: nat): Byte { w % 0x100 }
  function Byte1(w: nat): Byte { w / 0x100 % 0x100 }
  function Byte2(w: nat): Byte { w / 0x100 / 0x100 % 0x100 }
  function Byte3(w: nat): Byte { w / 0x100 / 0x100 / 0x100 % 0x100 }

  function PutWord(b: Block, i: nat, w: nat): (r: Block)
    requires i < NINDIRECT && w < UINT
  {
    b[4 * i := Byte0(w)][4 * i + 1 := Byte1(w)][4 * i + 2 := Byte2(w)][4 * i + 3 := Byte3(w)]
  }

  lemma {:induction false} WordBytes(w: nat)
    requires w < UINT
    ensures w == Val(Byte0(w)) + 0x100 * Val(Byte1(w)) + 0x1_0000 * Val(Byte2(w)) + 0x100_0000 * Val(Byte3(w))
  {
    var a := w / 0x100;
    var b := a / 0x100;
    assert w == w % 0x100 + 0x100 * a && a == a % 0x100 + 0x100 * b && b == b % 0x100 + 0x100 * (b / 0x100);
  }

  lemma {:induction false} WordOrder(b: Block, i: nat)
    requires i < NINDIRECT
    ensures var w := WordAt(b, i);
            && w % 0x100 == Val(b[4 * i]) && w / 0x100 % 0x100 == Val(b[4 * i + 1])
            && w / 0x100 / 0x100 % 0x100 == Val(b[4 * i + 2]) && w / 0x100 / 0x100 / 0x100 == Val(b[4 * i + 3])
  {
    var hi := Val(b[4 * i + 2]) + 0x100 * Val(b[4 * i + 3]);
    var mid := Val(b[4 * i + 1]) + 0x100 * hi;
    assert WordAt(b, i) == Val(b[4 * i]) + 0x100 * mid;
    assert WordAt(b, i) / 0x100 == mid && mid / 0x100 == hi;
  }

  lemma {:induction false} WordPut(b: Block, i: nat, w: nat, j: nat)
    requires i < NINDIRECT && j < NINDIRECT && w < UINT
    ensures WordAt(PutWord(b, i, w), j) == if j == i then w else WordAt(b, j)
  {
    hide Byte0, Byte1, Byte2, Byte3;
    WordBytes(w);
  }

  lemma {:induction false} WordZero(i: nat)
    requires i < NINDIRECT
    ensures WordAt(Zeroes(), i) == 0
  {
  }
}
