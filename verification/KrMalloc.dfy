/** The storage allocator of user programs (libs/umalloc.c): a circular free list in address
    order, first fit from a roving pointer, splitting on allocation, coalescing on release.
    Addresses are counted in headers, so a block of size s at b owns the units b .. b + s - 1,
    the first of which is its own header. */
module KrMalloc {
  import opened Common

  const NULL := 0
  const BASE := 1            // the static header, below all memory that sbrk hands out
  const HEADER := 8          // bytes in a header
  const NALLOC := 4096       // least number of units to ask for

  datatype Outcome = Block(ap: nat) | Null | Wild

  /** nunits as malloc computes it on 32-bit words. */
  function Needed(nbytes: nat): (n: nat)
    ensures n >= 1
  {
    ((nbytes + HEADER - 1) % UINT) / HEADER + 1
  }

  /** The int that sbrk receives for nu units. */
  function SbrkArgument(nu: nat): int {
    var bytes := (nu * HEADER) % UINT;
    if bytes < UINT / 2 then bytes else bytes - UINT
  }

  /** A block of Needed(nbytes) units has room for nbytes behind its header exactly when the
      rounding up does not wrap. */
  lemma {:induction false} RoomIffNoWrap(nbytes: nat)
    requires nbytes < UINT
    ensures (Needed(nbytes) - 1) * HEADER >= nbytes <==> nbytes + HEADER - 1 < UINT
  {
    if nbytes + HEADER - 1 < UINT {
      assert (nbytes + HEADER - 1) % UINT == nbytes + HEADER - 1;
    } else {
      assert (nbytes + HEADER - 1) % UINT == nbytes + HEADER - 1 - UINT;
    }
  }

  /** And no smaller number of units would do: one for the header and enough for the bytes. */
  lemma {:induction false} NeededLeast(nbytes: nat, n: nat)
    requires nbytes + HEADER - 1 < UINT && n >= 1
    ensures (n - 1) * HEADER >= nbytes <==> n >= Needed(nbytes)
  {
    assert (nbytes + HEADER - 1) % UINT == nbytes + HEADER - 1;
  }

  /** The units that morecore counts are the bytes that it asks sbrk for exactly when they stay
      below 2^31 bytes; beyond that sbrk is asked for nothing or to give memory back. */
  lemma {:induction false} CoreIffPositive(nbytes: nat)
    requires nbytes < UINT
    ensures var nu := Needed(nbytes);
            && (SbrkArgument(nu) == nu * HEADER <==> nu < UINT / (2 * HEADER))
            && (SbrkArgument(nu) > 0 <==> nu < UINT / (2 * HEADER))
            && (nu < UINT / (2 * HEADER) <==>
                nbytes <= UINT / 2 - 2 * HEADER || UINT - HEADER < nbytes)
  {
    var nu := Needed(nbytes);
    assert nu <= UINT / HEADER;
    if nbytes + HEADER - 1 < UINT {
      assert (nbytes + HEADER - 1) % UINT == nbytes + HEADER - 1;
    } else {
      assert (nbytes + HEADER - 1) % UINT == nbytes + HEADER - 1 - UINT;
    }
  }

  // ---- Tiling: the blocks, free or allocated, that share out the memory from sbrk ----

  predicate Owns(size: map<nat, nat>, b: nat, a: nat) {
    b in size && b <= a < b + size[b]
  }

  predicate Clear(size: map<nat, nat>, x: nat, y: nat)
    requires x in size && y in size
  {
    x + size[x] <= y || y + size[y] <= x
  }

  /** Blocks lie above the static header, which is empty, and do not overlap. */
  predicate Disjoint(blocks: set<nat>, size: map<nat, nat>) {
    && blocks <= size.Keys && BASE in blocks && size[BASE] == 0
    && (forall b :: b in blocks && b != BASE ==> b > BASE && size[b] >= 1)
    && (forall x, y :: x in blocks && y in blocks && x != y ==> Clear(size, x, y))
  }

  /** Every unit obtained from sbrk is in a block, and blocks hold nothing else. */
  ghost predicate Covered(blocks: set<nat>, size: map<nat, nat>, arena: set<nat>) {
    && (forall a :: a in arena ==> exists b :: b in blocks && Owns(size, b, a))
    && (forall b, a: nat :: b in blocks && Owns(size, b, a) ==> a in arena)
  }

  ghost predicate Tiling(blocks: set<nat>, size: map<nat, nat>, arena: set<nat>) {
    Disjoint(blocks, size) && Covered(blocks, size, arena)
  }

  /** Block y touches the end of x and is absorbed. */
  lemma {:induction false} MergeTiles(blocks: set<nat>, size: map<nat, nat>, arena: set<nat>, x: nat, y: nat)
    requires Tiling(blocks, size, arena) && x in blocks && y in blocks && x != BASE && x + size[x] == y
    ensures Tiling(blocks - {y}, size[x := size[x] + size[y]], arena)
  {
    var size' := size[x := size[x] + size[y]];
    forall b | b in blocks - {y} && b != x ensures Clear(size', x, b) && Clear(size', b, x) {
      assert Clear(size, b, x) && Clear(size, b, y);
    }
    forall b, c | b in blocks - {y} && c in blocks - {y} && b != c ensures Clear(size', b, c) {
      if b != x && c != x { assert Clear(size, b, c); }
    }
    forall a | a in arena ensures exists b :: b in blocks - {y} && Owns(size', b, a) {
      var b :| b in blocks && Owns(size, b, a);
      assert Owns(size', if b == y then x else b, a);
    }
    forall b, a: nat | b in blocks - {y} && Owns(size', b, a) ensures a in arena {
      assert Owns(size, if b == x && a >= y then y else b, a);
    }
  }

  /** The last n units of x become a block of their own. */
  lemma {:induction false} SplitTiles(blocks: set<nat>, size: map<nat, nat>, arena: set<nat>, x: nat, n: nat)
    requires Tiling(blocks, size, arena) && x in blocks && 0 < n < size[x]
    ensures var q: nat := x + (size[x] - n);
            q !in blocks && Tiling(blocks + {q}, size[x := size[x] - n][q := n], arena)
  {
    var q: nat := x + (size[x] - n);
    var size' := size[x := size[x] - n][q := n];
    assert forall b :: b in blocks && b != x ==> Clear(size, b, x);
    forall b | b in blocks && b != x
      ensures Clear(size', x, b) && Clear(size', b, x) && Clear(size', q, b) && Clear(size', b, q) {
      assert Clear(size, b, x);
    }
    forall b, c | b in blocks + {q} && c in blocks + {q} && b != c ensures Clear(size', b, c) {
      if b in blocks - {x} && c in blocks - {x} { assert Clear(size, b, c); }
    }
    forall a | a in arena ensures exists b :: b in blocks + {q} && Owns(size', b, a) {
      var b :| b in blocks && Owns(size, b, a);
      assert Owns(size', if b == x && a >= q then q else b, a);
    }
    forall b, a: nat | b in blocks + {q} && Owns(size', b, a) ensures a in arena {
      assert Owns(size, if b == q then x else b, a);
    }
  }

  /** The n units from h on. */
  ghost function Span(h: nat, n: nat): (r: set<nat>)
    ensures forall a: nat :: a in r <==> h <= a < h + n
    ensures |r| == n
  {
    if n == 0 then {} else Span(h, n - 1) + {h + n - 1}
  }

  /** Memory above everything obtained so far is a new block. */
  lemma {:induction false} GrowTiles(blocks: set<nat>, size: map<nat, nat>, arena: set<nat>, h: nat, n: nat)
    requires Tiling(blocks, size, arena) && n > 0 && h > BASE
    requires forall a :: a in arena ==> a < h
    ensures h !in blocks && Tiling(blocks + {h}, size[h := n], arena + Span(h, n))
  {
    hide Span, Disjoint, Covered;
    GrowDisjoint(blocks, size, arena, h, n);
    GrowCovered(blocks, size, arena, h, n);
  }

  /** All blocks end below fresh memory. */
  lemma {:induction false} BelowFresh(blocks: set<nat>, size: map<nat, nat>, arena: set<nat>, h: nat, b: nat)
    requires Tiling(blocks, size, arena) && h > BASE && b in blocks
    requires forall a :: a in arena ==> a < h
    ensures b + size[b] <= h && b < h
  {
    if b != BASE { assert Owns(size, b, b + size[b] - 1); }
  }

  lemma {:induction false} GrowDisjoint(blocks: set<nat>, size: map<nat, nat>, arena: set<nat>, h: nat, n: nat)
    requires Tiling(blocks, size, arena) && n > 0 && h > BASE
    requires forall a :: a in arena ==> a < h
    ensures h !in blocks && Disjoint(blocks + {h}, size[h := n])
  {
    hide Covered;
    forall b | b in blocks ensures b + size[b] <= h && b < h { BelowFresh(blocks, size, arena, h, b); }
    forall b, c | b in blocks + {h} && c in blocks + {h} && b != c ensures Clear(size[h := n], b, c) {
      if b in blocks && c in blocks { assert Clear(size, b, c); }
    }
  }

  lemma {:induction false} GrowCovered(blocks: set<nat>, size: map<nat, nat>, arena: set<nat>, h: nat, n: nat)
    requires Covered(blocks, size, arena) && h !in blocks
    ensures Covered(blocks + {h}, size[h := n], arena + Span(h, n))
  {
    hide Span;
    var size' := size[h := n];
    forall a | a in arena + Span(h, n) ensures exists b :: b in blocks + {h} && Owns(size', b, a) {
      if a in arena {
        var b :| b in blocks && Owns(size, b, a);
        assert Owns(size', b, a);
      } else {
        assert Owns(size', h, a);
      }
    }
    forall b, a: nat | b in blocks + {h} && Owns(size', b, a) ensures a in arena + Span(h, n) {
      if b != h { assert Owns(size, b, a); }
    }
  }

  // ---- Counting units ----

  ghost function Pick(s: set<nat>): (b: nat)
    requires s != {}
    ensures b in s
  {
    var b :| b in s; b
  }

  ghost function TotalUnits(s: set<nat>, size: map<nat, nat>): nat
    requires s <= size.Keys
    decreases |s|
  {
    if s == {} then 0 else size[Pick(s)] + TotalUnits(s - {Pick(s)}, size)
  }

  /** Blocks that do not overlap have as many units as the memory they cover. */
  lemma {:induction false} UnitsCount(s: set<nat>, size: map<nat, nat>, units: set<nat>)
    requires s <= size.Keys && Covered(s, size, units)
    requires forall x, y :: x in s && y in s && x != y ==> Clear(size, x, y)
    ensures TotalUnits(s, size) == |units|
    decreases |s|
  {
    if s == {} {
      assert units == {} by { assert forall a :: a !in units; }
    } else {
      hide Span;
      var b := Pick(s);
      var own := Span(b, size[b]);
      forall a | a in own ensures a in units { assert Owns(size, b, a); }
      forall a | a in units - own ensures exists c :: c in s - {b} && Owns(size, c, a) {
        var c :| c in s && Owns(size, c, a);
        assert c != b;
      }
      forall c, a: nat | c in s - {b} && Owns(size, c, a) ensures a in units - own { assert Clear(size, b, c); }
      assert Covered(s - {b}, size, units - own);
      UnitsCount(s - {b}, size, units - own);
      assert |units| == |units - own| + |own| by { assert units == (units - own) + own; }
    }
  }

  /** The free and the allocated units sum to what was obtained from sbrk. */
  lemma {:induction false} UnitsConserved(blocks: set<nat>, free: set<nat>, size: map<nat, nat>, arena: set<nat>)
    requires Tiling(blocks, size, arena) && free <= blocks
    ensures TotalUnits(free, size) + TotalUnits(blocks - free, size) == |arena|
  {
    hide Covered, Owns;
    var mine := set a | a in arena && exists b :: b in free && Owns(size, b, a);
    CoverSplits(blocks, free, size, arena, mine);
    UnitsCount(free, size, mine);
    UnitsCount(blocks - free, size, arena - mine);
    assert |arena| == |mine| + |arena - mine| by { assert arena == mine + (arena - mine); }
  }

  lemma {:induction false} CoverSplits(blocks: set<nat>, free: set<nat>, size: map<nat, nat>, arena: set<nat>,
                                       mine: set<nat>)
    requires Tiling(blocks, size, arena) && free <= blocks
    requires mine == set a | a in arena && exists b :: b in free && Owns(size, b, a)
    ensures Covered(free, size, mine) && Covered(blocks - free, size, arena - mine)
  {
    forall a | a in arena - mine ensures exists b :: b in blocks - free && Owns(size, b, a) {
      var b :| b in blocks && Owns(size, b, a);
      assert b !in free;
    }
    forall b, a: nat | b in blocks - free && Owns(size, b, a) ensures a in arena - mine {
      assert forall c :: c in free ==> Clear(size, b, c);
    }
  }

  // ---- The free list ----

  function Next(list: seq<nat>, i: nat): nat
    requires i < |list|
  {
    if i + 1 < |list| then list[i + 1] else list[0]
  }

  predicate Increasing(list: seq<nat>) {
    forall i, j :: 0 <= i < j < |list| ==> list[i] < list[j]
  }

  /** The free list starts at the static header, is in address order and closes on itself. */
  predicate Circle(list: seq<nat>, ptr: map<nat, nat>) {
    && |list| > 0 && list[0] == BASE && Increasing(list)
    && forall i :: 0 <= i < |list| ==> list[i] in ptr && ptr[list[i]] == Next(list, i)
  }

  /** No two free blocks touch. */
  predicate Coalesced(list: seq<nat>, size: map<nat, nat>) {
    forall x, y :: x in list && y in list && x != BASE && x in size ==> x + size[x] != y
  }

  /** Address b belongs between list[i] and its successor. */
  predicate Between(list: seq<nat>, b: nat, i: nat) {
    i < |list| && list[i] < b && (i + 1 < |list| ==> b < list[i + 1])
  }

  lemma {:induction false} ClosestBelow(list: seq<nat>, b: nat, i: nat)
    requires Increasing(list) && Between(list, b, i)
    ensures forall c :: c in list && c < b ==> c <= list[i]
  {
    forall c | c in list && c < b ensures c <= list[i] {
      var k :| 0 <= k < |list| && list[k] == c;
      assert k <= i;
    }
  }

  function Inserted(list: seq<nat>, b: nat, i: nat): (r: seq<nat>)
    requires i < |list|
    ensures |r| == |list| + 1 && r[i + 1] == b
    ensures forall k :: 0 <= k <= i ==> r[k] == list[k]
    ensures forall k :: i + 1 < k < |r| ==> r[k] == list[k - 1]
  {
    list[..i + 1] + [b] + list[i + 1..]
  }

  function Removed(list: seq<nat>, k: nat): (r: seq<nat>)
    requires k < |list|
    ensures |r| == |list| - 1
    ensures forall j :: 0 <= j < k ==> r[j] == list[j]
    ensures forall j :: k <= j < |r| ==> r[j] == list[j + 1]
  {
    list[..k] + list[k + 1..]
  }

  lemma {:induction false} InsertedIncreasing(list: seq<nat>, b: nat, i: nat)
    requires Increasing(list) && Between(list, b, i)
    ensures Increasing(Inserted(list, b, i))
    ensures b !in list && forall x :: x in Inserted(list, b, i) <==> x in list || x == b
  {
    hide Inserted;
    var list' := Inserted(list, b, i);
    forall k | 0 <= k < |list| ensures if k <= i then list[k] < b else b < list[k] {
    }
    forall x | x in list ensures x in list' {
      var k :| 0 <= k < |list| && list[k] == x;
      if k <= i { assert list'[k] == x; } else { assert list'[k + 1] == x; }
    }
    assert list'[i + 1] == b;
  }

  lemma {:induction false} InsertCircle(list: seq<nat>, ptr: map<nat, nat>, b: nat, i: nat)
    requires Circle(list, ptr) && Between(list, b, i)
    ensures Circle(Inserted(list, b, i), ptr[b := Next(list, i)][list[i] := b])
  {
    hide Inserted, Increasing;
    InsertedIncreasing(list, b, i);
    var list', ptr' := Inserted(list, b, i), ptr[b := Next(list, i)][list[i] := b];
    Differ(list);
    forall k | 0 <= k < |list'| ensures list'[k] in ptr' && ptr'[list'[k]] == Next(list', k) {
      if k > i + 1 { assert ptr[list[k - 1]] == Next(list, k - 1); }
    }
  }

  lemma {:induction false} Differ(list: seq<nat>)
    requires Increasing(list)
    ensures forall i, j :: 0 <= i < |list| && 0 <= j < |list| && i != j ==> list[i] != list[j]
  {
    forall i, j | 0 <= i < |list| && 0 <= j < |list| && i != j ensures list[i] != list[j] {
      if i < j {} else { assert list[j] < list[i]; }
    }
  }

  lemma {:induction false} RemovedIncreasing(list: seq<nat>, k: nat)
    requires Increasing(list) && k < |list|
    ensures Increasing(Removed(list, k))
    ensures forall x :: x in Removed(list, k) <==> x in list && x != list[k]
  {
    hide Removed;
    var list' := Removed(list, k);
    Differ(list);
    forall x | x in list && x != list[k] ensures x in list' {
      var j :| 0 <= j < |list| && list[j] == x;
      if j < k { assert list'[j] == x; } else { assert list'[j - 1] == x; }
    }
  }

  lemma {:induction false} RemoveCircle(list: seq<nat>, ptr: map<nat, nat>, k: nat)
    requires Circle(list, ptr) && 1 <= k < |list|
    ensures Circle(Removed(list, k), ptr[list[k - 1] := ptr[list[k]]])
  {
    hide Removed, Increasing;
    RemovedIncreasing(list, k);
    Differ(list);
    var list', ptr' := Removed(list, k), ptr[list[k - 1] := ptr[list[k]]];
    forall j | 0 <= j < |list'| ensures list'[j] in ptr' && ptr'[list'[j]] == Next(list', j) {
      if j < k - 1 {} else if j >= k { assert ptr[list[j + 1]] == Next(list, j + 1); }
    }
  }

  // ---- Heaps ----

  datatype Heap = Heap(list: seq<nat>, ptr: map<nat, nat>, size: map<nat, nat>, blocks: set<nat>)

  ghost predicate Good(h: Heap, arena: set<nat>) {
    && Tiling(h.blocks, h.size, arena) && Circle(h.list, h.ptr)
    && forall b :: b in h.list ==> b in h.blocks
  }

  function Link(h: Heap, b: nat, i: nat): Heap
    requires i < |h.list|
  {
    Heap(Inserted(h.list, b, i), h.ptr[b := Next(h.list, i)][h.list[i] := b], h.size, h.blocks)
  }

  /** Free blocks k and k + 1 of the list touch. */
  predicate Touch(h: Heap, k: nat) {
    && 1 <= k < |h.list| - 1 && h.list[k] in h.size && h.list[k + 1] in h.size && h.list[k + 1] in h.ptr
    && h.list[k] + h.size[h.list[k]] == h.list[k + 1]
  }

  function Absorb(h: Heap, k: nat): Heap
    requires Touch(h, k)
  {
    var x, y := h.list[k], h.list[k + 1];
    Heap(Removed(h.list, k + 1), h.ptr[x := h.ptr[y]], h.size[x := h.size[x] + h.size[y]], h.blocks - {y})
  }

  /** Free blocks other than b do not touch each other. */
  predicate CoalescedBut(list: seq<nat>, size: map<nat, nat>, b: nat) {
    forall x, y :: x in list && y in list && x != BASE && x != b && y != b && x in size ==> x + size[x] != y
  }

  /** A free block that touches another from below is its predecessor in the list. */
  lemma {:induction false} TouchesNext(h: Heap, arena: set<nat>, k: nat, y: nat)
    requires Good(h, arena) && 1 <= k < |h.list| && y in h.list && h.list[k] in h.size
    requires h.list[k] + h.size[h.list[k]] == y
    ensures Touch(h, k) && h.list[k + 1] == y
  {
    var j :| 0 <= j < |h.list| && h.list[j] == y;
    assert h.list[0] < h.list[k] && h.list[k] in h.list;
    assert forall m :: 0 <= m <= k ==> h.list[m] <= h.list[k];
    assert h.list[k + 1] in h.list && h.list[k] < h.list[k + 1] <= y;
    assert Clear(h.size, h.list[k], h.list[k + 1]);
  }

  function AbsorbIf(h: Heap, k: nat): Heap {
    if Touch(h, k) then Absorb(h, k) else h
  }

  /** What free does to the heap: link the block in, then absorb what touches it on either side. */
  function Released(h: Heap, b: nat, i: nat): Heap
    requires i < |h.list|
  {
    AbsorbIf(AbsorbIf(Link(h, b, i), i + 1), i)
  }

  ghost function Live(h: Heap): set<nat> { set b | b in h.blocks && b !in h.list }

  /** Nothing free touches the end of block b. */
  predicate EndsAlone(h: Heap, b: nat) {
    b in h.size && forall z :: z in h.list ==> b + h.size[b] != z
  }

  /** Once linked, b absorbs the block above it. */
  lemma {:induction false} AbsorbAbove(h: Heap, arena: set<nat>, b: nat, i: nat)
    requires Good(h, arena) && Coalesced(h.list, h.size) && Between(h.list, b, i) && b in h.blocks
    ensures var g := AbsorbIf(Link(h, b, i), i + 1);
            && Good(g, arena) && EndsAlone(g, b) && CoalescedBut(g.list, g.size, b)
            && Live(g) == Live(h) - {b} && b != BASE
            && i + 1 < |g.list| && g.list[i + 1] == b && g.list[i] == h.list[i]
            && b in h.size && h.size[b] <= g.size[b]
  {
    hide Link, Absorb, Tiling, Circle;
    var h1 := Link(h, b, i);
    LinkFacts(h, arena, b, i);
    if Touch(h1, i + 1) {
      AbsorbFacts(h1, arena, i + 1);
    } else {
      forall z | z in h1.list ensures b + h1.size[b] != z {
        if b + h1.size[b] == z { TouchesNext(h1, arena, i + 1, z); }
      }
    }
  }

  lemma {:induction false} LinkFacts(h: Heap, arena: set<nat>, b: nat, i: nat)
    requires Good(h, arena) && Between(h.list, b, i) && b in h.blocks
    ensures var g := Link(h, b, i);
            && Good(g, arena) && b !in h.list && b != BASE && b in g.size
            && (forall x :: x in g.list <==> x in h.list || x == b)
            && |g.list| == |h.list| + 1 && g.list[i + 1] == b && g.list[i] == h.list[i]
            && g.size == h.size && g.blocks == h.blocks
            && (Touch(g, i + 1) ==> i + 1 < |h.list| && g.list[i + 2] == h.list[i + 1])
  {
    hide Covered, Inserted;
    InsertCircle(h.list, h.ptr, b, i);
    InsertedIncreasing(h.list, b, i);
    assert h.list[0] in h.list;
  }

  lemma {:induction false} AbsorbFacts(h: Heap, arena: set<nat>, k: nat)
    requires Good(h, arena) && Touch(h, k)
    ensures var g, x, y := Absorb(h, k), h.list[k], h.list[k + 1];
            && Good(g, arena)
            && (forall z :: z in g.list <==> z in h.list && z != y)
            && |g.list| == |h.list| - 1 && (forall j :: 0 <= j <= k ==> g.list[j] == h.list[j])
            && y in h.list && y != BASE && x != y
            && g.size == h.size[x := h.size[x] + h.size[y]] && g.blocks == h.blocks - {y}
  {
    hide Disjoint, Covered, Removed, Next;
    var x, y := h.list[k], h.list[k + 1];
    assert x in h.list && y in h.list && h.list[0] < x < y;
    MergeTiles(h.blocks, h.size, arena, x, y);
    RemoveCircle(h.list, h.ptr, k + 1);
    RemovedIncreasing(h.list, k + 1);
  }

  /** free keeps the heap whole and coalesced, and takes exactly b out of the program's hands;
      the memory of b ends up inside one free block. */
  lemma {:induction false} ReleasedGood(h: Heap, arena: set<nat>, b: nat, i: nat)
    requires Good(h, arena) && Coalesced(h.list, h.size) && Between(h.list, b, i) && b in h.blocks
    ensures var g := Released(h, b, i);
            && Good(g, arena) && Coalesced(g.list, g.size) && Live(g) == Live(h) - {b}
            && h.list[i] in g.list
            && (exists c :: c in g.list && c in g.size && c <= b && b + h.size[b] <= c + g.size[c])
  {
    hide Link, Absorb, Tiling, Circle;
    AbsorbAbove(h, arena, b, i);
    var h2 := AbsorbIf(Link(h, b, i), i + 1);
    assert h2.list[i] in h2.list && h2.list[i + 1] in h2.list;
    if Touch(h2, i) {
      AbsorbFacts(h2, arena, i);
      var g := Absorb(h2, i);
      assert h.list[i] in g.list && h.list[i] <= b && b + h.size[b] <= h.list[i] + g.size[h.list[i]];
    } else {
      forall x | x in h2.list && x != BASE && x in h2.size ensures x + h2.size[x] != b {
        if x + h2.size[x] == b {
          var k :| 0 <= k < |h2.list| && h2.list[k] == x;
          Unique(h2, arena, i + 1);
          TouchesNext(h2, arena, k, b);
        }
      }
      assert b in h2.list && b + h.size[b] <= b + h2.size[b];
    }
  }

  lemma {:induction false} Unique(h: Heap, arena: set<nat>, i: nat)
    requires Good(h, arena) && i < |h.list|
    ensures h.list[0] == BASE && forall k :: 0 <= k < |h.list| && k != i ==> h.list[k] != h.list[i]
  {
    Differ(h.list);
  }

  /** free writes no header but those of the block and of its predecessor in the list. */
  lemma {:induction false} ReleasedWrites(h: Heap, b: nat, i: nat)
    requires i < |h.list| && h.list[i] in h.ptr && h.list[i] in h.size && b in h.size
    ensures var g := Released(h, b, i);
            SameBut(h.size, g.size, {b, h.list[i]}) && SameBut(h.ptr, g.ptr, {b, h.list[i]})
  {
  }

  /** The words of all addresses outside s are as before. */
  predicate SameBut(m: map<nat, nat>, m': map<nat, nat>, s: set<nat>) {
    && m'.Keys <= m.Keys + s
    && forall a :: a in m && a !in s ==> a in m' && m'[a] == m[a]
  }

  /** The header of the n units that malloc takes from the m-th free block: its tail. */
  function Tail(h: Heap, m: nat, n: nat): nat
    requires m < |h.list| && h.list[m] in h.size && n <= h.size[h.list[m]]
  {
    h.list[m] + (h.size[h.list[m]] - n)
  }

  function Carved(h: Heap, m: nat, n: nat): Heap
    requires 1 <= m < |h.list| && h.list[m] in h.size && h.list[m] in h.ptr && n <= h.size[h.list[m]]
  {
    var p := h.list[m];
    if h.size[p] == n then
      h.(list := Removed(h.list, m), ptr := h.ptr[h.list[m - 1] := h.ptr[p]])
    else
      h.(size := h.size[p := h.size[p] - n][Tail(h, m, n) := n], blocks := h.blocks + {Tail(h, m, n)})
  }

  /** malloc keeps the heap whole and coalesced and hands out one new block of exactly n units. */
  lemma {:induction false} CarvedGood(h: Heap, arena: set<nat>, m: nat, n: nat)
    requires Good(h, arena) && Coalesced(h.list, h.size) && n >= 1
    requires 1 <= m < |h.list| && h.list[m] in h.size && n <= h.size[h.list[m]]
    ensures h.list[m] in h.ptr
    ensures var g, q := Carved(h, m, n), Tail(h, m, n);
            && Good(g, arena) && Coalesced(g.list, g.size)
            && q !in Live(h) && Live(g) == Live(h) + {q} && q in g.size && g.size[q] == n
            && SameBut(h.size, g.size, {h.list[m], q}) && SameBut(h.ptr, g.ptr, {h.list[m - 1]})
            && h.list[m - 1] in g.list
  {
    hide Covered, Removed, Next;
    var p := h.list[m];
    Differ(h.list);
    assert p in h.list && h.list[m - 1] in h.list;
    if h.size[p] == n {
      RemoveCircle(h.list, h.ptr, m);
      RemovedIncreasing(h.list, m);
    } else {
      SplitTiles(h.blocks, h.size, arena, p, n);
    }
  }

  predicate SameWord(m: map<nat, nat>, m': map<nat, nat>, a: nat) {
    (a in m <==> a in m') && (a in m ==> m'[a] == m[a])
  }

  /** No word inside the given blocks, headers included, is written. */
  ghost predicate Undisturbed(h: Heap, g: Heap, live: set<nat>) {
    forall c, a: nat :: c in live && Owns(h.size, c, a) ==> SameWord(h.ptr, g.ptr, a) && SameWord(h.size, g.size, a)
  }

  lemma {:induction false} Undisturbing(h: Heap, g: Heap, arena: set<nat>, live: set<nat>, s: set<nat>, t: set<nat>)
    requires Good(h, arena) && live <= h.blocks && SameBut(h.size, g.size, s) && SameBut(h.ptr, g.ptr, t)
    requires forall a :: a in s || a in t ==>
          a !in arena || (exists b :: b in h.blocks && b !in live && Owns(h.size, b, a))
    ensures Undisturbed(h, g, live)
  {
    forall c, a: nat | c in live && Owns(h.size, c, a) ensures a !in s && a !in t {
      assert forall b :: b in h.blocks && b != c ==> Clear(h.size, b, c);
    }
  }

  lemma {:induction false} UndisturbedTrans(h: Heap, g: Heap, k: Heap, live: set<nat>)
    requires Undisturbed(h, g, live) && Undisturbed(g, k, live)
    requires forall c :: c in live ==> c in h.size && h.size[c] >= 1
    ensures Undisturbed(h, k, live)
  {
    forall c, a: nat | c in live && Owns(h.size, c, a)
      ensures SameWord(h.ptr, k.ptr, a) && SameWord(h.size, k.size, a) {
      assert Owns(h.size, c, c);
      assert Owns(g.size, c, a);
    }
  }

  lemma {:induction false} LiveOnly(h: Heap, arena: set<nat>, b: nat)
    requires Good(h, arena) && b in Live(h)
    ensures b > BASE && b !in h.list && b in h.blocks && b in h.size && h.size[b] >= 1
  {
    assert h.list[0] in h.list;
  }

  lemma {:induction false} ReleasedQuiet(h: Heap, arena: set<nat>, b: nat, i: nat)
    requires Good(h, arena) && Between(h.list, b, i) && b in Live(h)
    ensures Undisturbed(h, Released(h, b, i), Live(h) - {b})
  {
    hide Released, Covered;
    LiveOnly(h, arena, b);
    var p := h.list[i];
    assert p in h.list;
    ReleasedWrites(h, b, i);
    HeaderOwned(h, arena, b);
    HeaderOwned(h, arena, p);
    Undisturbing(h, Released(h, b, i), arena, Live(h) - {b}, {b, p}, {b, p});
  }

  /** The header of a block is its own, or is the static one. */
  lemma {:induction false} HeaderOwned(h: Heap, arena: set<nat>, b: nat)
    requires Good(h, arena) && b in h.blocks
    ensures b !in arena || Owns(h.size, b, b)
  {
    assert forall c :: c in h.blocks ==> !Owns(h.size, c, BASE);
  }

  function Grown(h: Heap, b: nat, n: nat): Heap { h.(size := h.size[b := n], blocks := h.blocks + {b}) }

  /** Memory fresh from sbrk enters the heap as one more allocated block. */
  lemma {:induction false} GrownGood(h: Heap, arena: set<nat>, b: nat, n: nat)
    requires Good(h, arena) && Coalesced(h.list, h.size) && n > 0 && b > BASE && (forall a :: a in arena ==> a < b)
    ensures var g := Grown(h, b, n);
            && Good(g, arena + Span(b, n)) && Coalesced(g.list, g.size)
            && b !in h.blocks && Live(g) == Live(h) + {b} && Undisturbed(h, g, Live(h))
  {
    hide Circle, Span;
    GrowTiles(h.blocks, h.size, arena, b, n);
    Undisturbing(h, Grown(h, b, n), arena, Live(h), {b}, {});
  }

  /** malloc writes no word of a block already handed out. */
  lemma {:induction false} CarvedQuiet(h: Heap, arena: set<nat>, m: nat, n: nat)
    requires Good(h, arena) && Coalesced(h.list, h.size) && n >= 1
    requires 1 <= m < |h.list| && h.list[m] in h.size && n <= h.size[h.list[m]] && h.list[m] in h.ptr
    ensures Undisturbed(h, Carved(h, m, n), Live(h))
  {
    hide Carved, Covered, Coalesced;
    CarvedGood(h, arena, m, n);
    var p, q := h.list[m], Tail(h, m, n);
    assert p in h.list && h.list[m - 1] in h.list;
    HeaderOwned(h, arena, p);
    HeaderOwned(h, arena, h.list[m - 1]);
    assert Owns(h.size, p, q);
    Undisturbing(h, Carved(h, m, n), arena, Live(h), {p, q}, {h.list[m - 1]});
  }

  // ---- Walking the circle ----

  lemma {:induction false} GoodCircle(h: Heap, arena: set<nat>)
    requires Good(h, arena)
    ensures Circle(h.list, h.ptr) && Increasing(h.list)
    ensures forall i :: 0 <= i < |h.list| - 1 ==> h.list[i] < h.list[i + 1]
    ensures forall i :: 0 <= i < |h.list| ==> h.list[i] >= BASE
    ensures forall b :: b in h.list ==> b in h.size
  {
  }

  /** Where b belongs in the list. */
  ghost function Place(list: seq<nat>, b: nat): (i: nat)
    requires |list| > 0 && list[0] < b && b !in list && Increasing(list)
    ensures Between(list, b, i)
  {
    if list[|list| - 1] < b then |list| - 1
    else Place(list[..|list| - 1], b)
  }

  /** The circle's k-th block after list[f] is the first one with room for n units. */
  predicate FirstFit(h: Heap, f: nat, n: nat, k: nat) {
    && f < |h.list| && 1 <= k <= |h.list| && RoomAt(h, f, n, k)
    && forall j :: 1 <= j < k ==> !RoomAt(h, f, n, j)
  }

  predicate RoomAt(h: Heap, f: nat, n: nat, k: nat)
    requires f < |h.list| && k <= |h.list|
  {
    At(h.list, f, k) in h.size && h.size[At(h.list, f, k)] >= n
  }

  /** The list before the first malloc has linked the static header to itself. */
  ghost function Start(h: Heap): Heap {
    if h.list == [] then Heap([BASE], h.ptr[BASE := BASE], h.size[BASE := 0], {BASE}) else h
  }

  /** The block k steps after list[f] on the circle. */
  function At(list: seq<nat>, f: nat, k: nat): nat
    requires f < |list| && k <= |list|
  {
    if f + k < |list| then list[f + k] else list[f + k - |list|]
  }

  lemma {:induction false} AtNext(list: seq<nat>, ptr: map<nat, nat>, f: nat, k: nat)
    requires Circle(list, ptr) && f < |list| && k <= |list|
    ensures At(list, f, k) in list && At(list, f, k) in ptr
    ensures k < |list| ==> ptr[At(list, f, k)] == At(list, f, k + 1)
    ensures 0 < k < |list| ==> At(list, f, k) != list[f]
  {
    Differ(list);
  }

  /** Walking |list| steps from anywhere meets every block. */
  lemma {:induction false} AtAll(list: seq<nat>, f: nat, c: nat) returns (k: nat)
    requires f < |list| && c in list
    ensures 1 <= k <= |list| && At(list, f, k) == c
  {
    var m :| 0 <= m < |list| && list[m] == c;
    k := if m > f then m - f else m + |list| - f;
  }

  // ---- The allocator ----

  /** The header words after free has linked bp behind p, as the statements write them. */
  function FreeWords(ptr: map<nat, nat>, size: map<nat, nat>, p: nat, bp: nat): (r: (map<nat, nat>, map<nat, nat>))
    requires p in ptr && p in size && bp in size && ptr[p] in ptr && ptr[p] in size
  {
    var joined := bp + size[bp] == ptr[p];
    var size1 := if joined then size[bp := size[bp] + size[ptr[p]]] else size;
    var ptr1 := if joined then ptr[bp := ptr[ptr[p]]] else ptr[bp := ptr[p]];
    if p + size1[p] == bp then (ptr1[p := ptr1[bp]], size1[p := size1[p] + size1[bp]])
    else (ptr1[p := bp], size1)
  }

  /** The words once bp has absorbed the block above it. */
  lemma {:induction false} WordsAbove(h: Heap, arena: set<nat>, bp: nat, i: nat)
    requires Good(h, arena) && Between(h.list, bp, i) && bp in h.blocks
    ensures var p, next, g := h.list[i], Next(h.list, i), AbsorbIf(Link(h, bp, i), i + 1);
            && p in h.ptr && p in h.size && bp in h.size && next in h.ptr && next in h.size
            && h.ptr[p] == next && p != bp && next != bp
            && var joined := bp + h.size[bp] == next;
            && g.ptr == (if joined then h.ptr[bp := h.ptr[next]] else h.ptr[bp := next])[p := bp]
            && g.size == (if joined then h.size[bp := h.size[bp] + h.size[next]] else h.size)
            && i + 1 < |g.list| && g.list[i] == p && g.list[i + 1] == bp
            && (Touch(g, i) <==> p + g.size[p] == bp)
  {
    hide Good, Inserted, Removed;
    Edges(h, arena, bp, i);
    var p, next, h1 := h.list[i], Next(h.list, i), Link(h, bp, i);
    assert Touch(h1, i + 1) <==> bp + h.size[bp] == next;
    if Touch(h1, i + 1) {
      Overwrite(h.ptr, bp, next, p, bp, h.ptr[next]);
    }
  }

  lemma {:induction false} Edges(h: Heap, arena: set<nat>, bp: nat, i: nat)
    requires Good(h, arena) && Between(h.list, bp, i) && bp in h.blocks
    ensures var p, next := h.list[i], Next(h.list, i);
            && p in h.ptr && p in h.size && bp in h.size && next in h.ptr && next in h.size
            && h.ptr[p] == next && p < bp && next != bp && (p == BASE <==> i == 0) && h.size[BASE] == 0
            && (bp + h.size[bp] == next ==> i + 1 < |h.list| && p != next)
  {
    hide Covered;
    var p, next := h.list[i], Next(h.list, i);
    assert p in h.list && next in h.list;
  }

  lemma {:induction false} Overwrite(m: map<nat, nat>, a: nat, x: nat, b: nat, y: nat, z: nat)
    requires a != b
    ensures m[a := x][b := y][a := z] == m[a := z][b := y]
  {
  }

  lemma {:induction false} FreeWordsRelease(h: Heap, arena: set<nat>, bp: nat, i: nat)
    requires Good(h, arena) && Between(h.list, bp, i) && bp in h.blocks
    ensures var p := h.list[i];
            && p in h.ptr && p in h.size && bp in h.size && h.ptr[p] in h.ptr && h.ptr[p] in h.size
            && FreeWords(h.ptr, h.size, p, bp).0 == Released(h, bp, i).ptr
            && FreeWords(h.ptr, h.size, p, bp).1 == Released(h, bp, i).size
  {
    hide Good, Link, Next, Removed;
    WordsAbove(h, arena, bp, i);
  }

  class Allocator {
    var ptr: map<nat, nat>       // the ptr word of every header written so far
    var size: map<nat, nat>      // the size word of every header written so far
    var freep: nat
    ghost var list: seq<nat>     // the free list from the static header on
    ghost var blocks: set<nat>   // every block, free or allocated
    ghost var arena: set<nat>    // the units obtained from sbrk
    ghost var top: nat           // they all lie below

    ghost function H(): Heap
      reads this
    {
      Heap(list, ptr, size, blocks)
    }

    ghost predicate Valid()
      reads this
    {
      && top > BASE && (forall a :: a in arena ==> a < top)
      && if freep == NULL then blocks == {} && arena == {} && list == []
         else Good(H(), arena) && freep in list && Coalesced(list, size)
    }

    constructor (end: nat)
      requires end > BASE
      ensures Valid() && Live(H()) == {} && arena == {} && top == end
    {
      ptr, size, freep, list, blocks, arena, top := map[], map[], NULL, [], {}, {}, end;
    }

    /** The search of free: walks the circle from freep to the place of bp. */
    method Locate(bp: nat) returns (p: nat, ghost i: nat)
      requires Valid() && freep != NULL && bp > BASE && bp !in list
      ensures Between(list, bp, i) && p == list[i]
    {
      hide Good, Coalesced, Increasing;
      GoodCircle(H(), arena);
      ghost var t := Place(list, bp);
      p := freep;
      i :| 0 <= i < |list| && list[i] == p;
      while !(bp > p && bp < ptr[p])
        invariant i < |list| && list[i] == p
        decreases if i <= t then t - i else t + |list| - i
      {
        if p >= ptr[p] && (bp > p || bp < ptr[p]) {
          break;
        }
        assert i != t;
        p, i := ptr[p], if i + 1 < |list| then i + 1 else 0;
      }
    }

    /** The stores of free, once the place p of bp is known. */
    method LinkIn(p: nat, bp: nat)
      requires p in ptr && p in size && bp in size && ptr[p] in ptr && ptr[p] in size
      modifies this`ptr, this`size, this`freep
      ensures ptr == FreeWords(old(ptr), old(size), p, bp).0 && size == FreeWords(old(ptr), old(size), p, bp).1
      ensures freep == p
    {
      if bp + size[bp] == ptr[p] {
        size := size[bp := size[bp] + size[ptr[p]]];
        ptr := ptr[bp := ptr[ptr[p]]];
      } else {
        ptr := ptr[bp := ptr[p]];
      }
      if p + size[p] == bp {
        size := size[p := size[p] + size[bp]];
        ptr := ptr[p := ptr[bp]];
      } else {
        ptr := ptr[p := bp];
      }
      freep := p;
    }

    /** free, given the header of the block. */
    method FreeBlock(bp: nat)
      requires Valid() && freep != NULL && bp in Live(H())
      modifies this
      ensures Valid() && freep != NULL && arena == old(arena) && top == old(top)
      ensures Live(H()) == old(Live(H())) - {bp}
      ensures exists c :: c in list && c in size && c <= bp && bp + old(size[bp]) <= c + size[c]
      // The next search begins after the closest free block below bp:
      ensures freep in old(list) && freep < bp && forall c :: c in old(list) && c < bp ==> c <= freep
      ensures Undisturbed(old(H()), H(), old(Live(H())) - {bp})
    {
      hide Good, Released, Coalesced, Live, Undisturbed, Circle, FreeWords;
      ghost var h := H();
      LiveOnly(h, arena, bp);
      GoodCircle(h, arena);
      var p, i := Locate(bp);
      ClosestBelow(list, bp, i);
      FreeWordsRelease(h, arena, bp, i);
      ReleasedGood(h, arena, bp, i);
      ReleasedQuiet(h, arena, bp, i);
      LinkIn(p, bp);
      ghost var g := Released(h, bp, i);
      list, blocks := g.list, g.blocks;
      assert H() == g;
    }
  
    /** free, for a block that malloc returned. */
    method Free(ap: nat)
      requires Valid() && ap > 0 && ap - 1 in Live(H())
      modifies this
      ensures Valid() && arena == old(arena) && Live(H()) == old(Live(H())) - {ap - 1}
      ensures freep in old(list) && freep < ap - 1 && forall c :: c in old(list) && c < ap - 1 ==> c <= freep
      ensures Undisturbed(old(H()), H(), old(Live(H())) - {ap - 1})
    {
      hide Good, Coalesced, Undisturbed;
      FreeBlock(ap - 1);
    }

    /** core is what sbrk answers if asked: an address above all memory so far, or -1. */
    method Morecore(nunits: nat, core: int) returns (p: nat, wild: bool)
      requires Valid() && freep != NULL && nunits >= 1 && (core == -1 || core >= top)
      modifies this
      ensures Valid() && freep != NULL
      ensures wild <==> core != -1 && SbrkArgument(Max(nunits, NALLOC)) <= 0
      ensures core == -1 || wild ==> p == NULL && H() == old(H()) && freep == old(freep) && arena == old(arena)
      ensures core != -1 && !wild ==>
        && p == freep && More(old(H()), H(), old(arena), arena, core, nunits)
        && (exists c :: c in list && c in size && size[c] >= nunits)
    {
      hide Good, Coalesced, Live, Undisturbed, SbrkArgument;
      var nu := Max(nunits, NALLOC);
      if core == -1 {
        return NULL, false;
      }
      if SbrkArgument(nu) <= 0 {
        return NULL, true;
      }
      ghost var h := H();
      var hp: nat := core;
      GrownGood(h, arena, hp, nu);
      size := size[hp := nu];
      blocks, arena, top := blocks + {hp}, arena + Span(hp, nu), hp + nu;
      ghost var g := H();
      assert g == Grown(h, hp, nu);
      LiveOnly(g, arena, hp);
      FreeBlock(hp);
      MorecoreQuiet(h, g, H(), old(arena), hp);
      return freep, false;
    }

    /** The call of morecore inside malloc; some block now has room. */
    method Refill(nunits: nat, core: int) returns (p: nat, wild: bool, ghost f: nat, ghost fit: nat)
      requires Valid() && freep != NULL && nunits >= 1 && (core == -1 || core >= top)
      modifies this
      ensures Valid() && freep != NULL
      ensures p == NULL ==> H() == old(H()) && freep == old(freep) && arena == old(arena)
      ensures p == NULL ==> core == -1 || SbrkArgument(Max(nunits, NALLOC)) <= 0
      ensures wild ==> p == NULL && SbrkArgument(Max(nunits, NALLOC)) <= 0
      ensures p == NULL && !wild ==> core == -1
      ensures p != NULL || wild ==> core != -1
      ensures p != NULL ==> SbrkArgument(Max(nunits, NALLOC)) > 0
      ensures p != NULL ==>
        && p == freep && More(old(H()), H(), old(arena), arena, core, nunits)
        && f < |list| && list[f] == p && 1 <= fit <= |list| && RoomAt(H(), f, nunits, fit)
    {
      hide Good, Coalesced, Live, Undisturbed, More, SbrkArgument, At, Circle;
      p, wild := Morecore(nunits, core);
      f, fit := 0, 0;
      if p != NULL {
        f, fit := Restart(H(), freep, nunits);
      }
    }

    /** The loop of malloc, up to the block it settles on. */
    method Search(nunits: nat, core: int)
      returns (r: Outcome, prevp: nat, p: nat, ghost calls: nat, ghost f: nat, ghost j: nat)
      requires Valid() && freep != NULL && nunits >= 1 && (core == -1 || core >= top)
      modifies this
      ensures Valid() && freep != NULL && calls <= 1
      ensures r.Block? ==>
        && FirstFit(H(), f, nunits, j) && list[f] == freep && p == At(list, f, j) && prevp == At(list, f, j - 1)
      ensures calls == 0 ==> H() == old(H()) && freep == old(freep) && arena == old(arena)
      ensures calls == 1 ==> r.Block? && More(old(H()), H(), old(arena), arena, core, nunits)
      ensures !r.Block? || calls == 1 ==> NoneFits(old(H()), nunits)
      ensures r.Null? ==> core == -1
      ensures r.Wild? || calls == 1 ==> core != -1
      ensures r.Wild? ==> SbrkArgument(Max(nunits, NALLOC)) <= 0
      ensures calls == 1 ==> SbrkArgument(Max(nunits, NALLOC)) > 0
    {
      hide Good, Coalesced, Live, Undisturbed, More, SbrkArgument, At, Circle;
      ghost var h := H();
      f :| 0 <= f < |list| && list[f] == freep;
      Steps(h, arena, f, 0);
      prevp, p, calls, j := freep, ptr[freep], 0, 1;
      ghost var fit := 0;
      while size[p] < nunits
        invariant Valid() && freep != NULL && calls <= 1
        invariant f < |list| && list[f] == freep && 1 <= j <= |list|
        invariant p == At(list, f, j) && prevp == At(list, f, j - 1) && p in size
        invariant forall k :: 1 <= k < j ==> !RoomAt(H(), f, nunits, k)
        invariant calls == 0 ==> H() == h && freep == old(freep) && arena == old(arena) && top == old(top)
        invariant calls == 1 ==> More(h, H(), old(arena), arena, core, nunits)
        invariant calls == 1 ==> NoneFits(h, nunits) && core != -1 && SbrkArgument(Max(nunits, NALLOC)) > 0
        invariant calls == 1 ==> j <= fit <= |list| && RoomAt(H(), f, nunits, fit)
        decreases 1 - calls, |list| - j
      {
        Steps(H(), arena, f, j);
        assert !RoomAt(H(), f, nunits, j);
        if p == freep {
          ghost var all, from := H(), f;
          var wild;
          NoRoom(all, from, nunits);
          p, wild, f, fit := Refill(nunits, core);
          if p == NULL {
            return if wild then Wild else Null, prevp, p, calls, f, j;
          }
          calls, j := 1, 0;
          Steps(H(), arena, f, 0);
        }
        prevp, p, j := p, ptr[p], j + 1;
      }
      r := Block(p);
    }

    /** The stores of malloc once it has settled on p. */
    method Carve(prevp: nat, p: nat, nunits: nat) returns (b: nat)
      requires p in size && p in ptr && nunits <= size[p]
      modifies this`ptr, this`size, this`freep
      ensures b == p + (old(size[p]) - nunits) && freep == prevp
      ensures old(size[p]) == nunits ==> ptr == old(ptr[prevp := ptr[p]]) && size == old(size)
      ensures old(size[p]) != nunits ==> ptr == old(ptr) && size == old(size[p := size[p] - nunits])[b := nunits]
    {
      b := p;
      if size[p] == nunits {
        ptr := ptr[prevp := ptr[p]];
      } else {
        size := size[p := size[p] - nunits];
        b := b + size[p];
        size := size[b := nunits];
      }
      freep := prevp;
    }

    method Take(prevp: nat, p: nat, nunits: nat, ghost m: nat) returns (b: nat)
      requires Valid() && freep != NULL && nunits >= 1 && 1 <= m < |list| && p == list[m] && prevp == list[m - 1]
      requires p in size && p in ptr && nunits <= size[p]
      modifies this
      ensures H() == old(Carved(H(), m, nunits)) && b == old(Tail(H(), m, nunits))
      ensures Valid() && freep == prevp && freep != NULL && arena == old(arena)
    {
      hide Good, Coalesced, Live, Removed, Circle;
      ghost var h := H();
      GoodCircle(h, arena);
      CarvedGood(h, arena, m, nunits);
      b := Carve(prevp, p, nunits);
      ghost var g := Carved(h, m, nunits);
      list, blocks := g.list, g.blocks;
      assert H() == g;
    }

    /** The end of malloc's loop: the block at p gives the units, or its tail. */
    method Give(prevp: nat, p: nat, nunits: nat, ghost f: nat, ghost j: nat) returns (b: nat)
      requires Valid() && freep != NULL && nunits >= 1 && FirstFit(H(), f, nunits, j) && list[f] == freep
      requires p == At(list, f, j) && prevp == At(list, f, j - 1)
      modifies this
      ensures Valid() && arena == old(arena) && Takes(old(H()), old(freep), nunits, H(), b)
      ensures !NoneFits(old(H()), nunits)
      ensures b !in old(Live(H())) && Live(H()) == old(Live(H())) + {b} && b in size && size[b] == nunits
      ensures Undisturbed(old(H()), H(), old(Live(H())))
    {
      hide Good, Coalesced, Live, Undisturbed, At, Carved;
      ghost var h := H();
      ghost var m := FoundAt(h, arena, f, nunits, j);
      CarvedGood(h, arena, m, nunits);
      CarvedQuiet(h, arena, m, nunits);
      b := Take(prevp, p, nunits, m);
    }

    /** malloc.  It asks for core at most once.  A block it returns is new, has exactly the units
        computed for the request and came from the tail of the first fit; only memory just
        obtained from sbrk is added; and no word of any block in use is written.  It returns null
        if and only if no free block has room and sbrk fails. */
    method Malloc(nbytes: nat, core: int) returns (r: Outcome, ghost calls: nat)
      requires Valid() && nbytes < UINT && (core == -1 || core >= top)
      modifies this
      ensures calls <= 1 && (!r.Wild? ==> Valid())
      ensures r.Block? ==>
        && r.ap > 0 && r.ap - 1 !in old(Live(H())) && Live(H()) == old(Live(H())) + {r.ap - 1}
        && r.ap - 1 in size && size[r.ap - 1] == Needed(nbytes)
        && Undisturbed(old(H()), H(), old(Live(H())))
      ensures calls == 0 ==> arena == old(arena)
      ensures calls == 0 && r.Block? ==> Takes(old(H()), old(freep), Needed(nbytes), H(), r.ap - 1)
      ensures calls == 1 ==> r.Block? && Obtained(old(arena), arena, core, Max(Needed(nbytes), NALLOC))
      ensures r.Null? ==> H() == Start(old(H()))
      ensures r.Null? <==> NoneFits(old(H()), Needed(nbytes)) && core == -1
      ensures r.Wild? <==>
        NoneFits(old(H()), Needed(nbytes)) && core != -1 && SbrkArgument(Max(Needed(nbytes), NALLOC)) <= 0
    {
      hide Good, Coalesced, Live, Undisturbed, SbrkArgument, At, Span, Takes, FirstFit, NoneFits;
      var nunits := Needed(nbytes);
      var prevp := freep;
      if prevp == NULL {
        ptr, freep, prevp := ptr[BASE := BASE], BASE, BASE;
        size := size[BASE := 0];
        list, blocks := [BASE], {BASE};
      }
      StartGood(old(H()), H(), arena);
      StartFits(old(H()), nunits);
      ghost var start := H();
      var p;
      ghost var f, j;
      r, prevp, p, calls, f, j := Search(nunits, core);
      if r.Block? {
        ghost var h := H();
        var b := Give(prevp, p, nunits, f, j);
        MallocQuiet(old(H()), start, h, H(), old(arena));
        r := Block(b + 1);
      }
    }
  }

  /** Exactly n units at core have been added to the memory that the allocator manages. */
  ghost predicate Obtained(arena: set<nat>, arena': set<nat>, core: int, n: nat) {
    core >= 0 && arena' == arena + Span(core, n) && arena !! Span(core, n)
  }

  /** The block b of n units is the tail of the first fit after freep, and g is the heap without it. */
  ghost predicate Takes(h: Heap, freep: nat, n: nat, g: Heap, b: nat) {
    exists f: nat, k: nat, m: nat ::
      && FirstFit(h, f, n, k) && h.list[f] == freep
      && 1 <= m < |h.list| && h.list[m] == At(h.list, f, k) && h.list[m] in h.ptr
      && g == Carved(h, m, n) && b == Tail(h, m, n)
  }

  /** Block b is the end of a free block c with room for it; what is left of c stays where it was, and c
      leaves the list if nothing is. */
  lemma {:induction false} TakesTail(h: Heap, arena: set<nat>, freep: nat, n: nat, g: Heap, b: nat) returns (c: nat)
    requires Good(h, arena) && n >= 1 && Takes(h, freep, n, g, b)
    ensures c in h.list && c in h.size && n <= h.size[c] && b + n == c + h.size[c]
    ensures if h.size[c] == n then b == c && c !in g.list
            else c in g.list && c in g.size && g.size[c] == h.size[c] - n && b in g.size && g.size[b] == n
    ensures forall x :: x in g.list <==> x in h.list && (x != c || h.size[c] != n)
  {
    hide Good, Carved, Tail;
    var f: nat, k: nat, m: nat :|
      && FirstFit(h, f, n, k) && h.list[f] == freep
      && 1 <= m < |h.list| && h.list[m] == At(h.list, f, k) && h.list[m] in h.ptr
      && g == Carved(h, m, n) && b == Tail(h, m, n);
    var m2 := FoundAt(h, arena, f, n, k);
    c := h.list[m];
    CarvedTail(h, arena, m, n);
  }

  lemma {:induction false} CarvedTail(h: Heap, arena: set<nat>, m: nat, n: nat)
    requires Good(h, arena) && n >= 1
    requires 1 <= m < |h.list| && h.list[m] in h.size && h.list[m] in h.ptr && n <= h.size[h.list[m]]
    ensures var c, g, b := h.list[m], Carved(h, m, n), Tail(h, m, n);
            && b + n == c + h.size[c]
            && (if h.size[c] == n then b == c && c !in g.list
                else c in g.list && c in g.size && g.size[c] == h.size[c] - n && b in g.size && g.size[b] == n)
            && forall x :: x in g.list <==> x in h.list && (x != c || h.size[c] != n)
  {
    hide Good, Removed;
    GoodCircle(h, arena);
    CircleIncreasing(h.list, h.ptr);
    Differ(h.list);
    if h.size[h.list[m]] == n { RemovedMembers(h.list, m); }
  }

  lemma {:induction false} CircleIncreasing(list: seq<nat>, ptr: map<nat, nat>)
    requires Circle(list, ptr)
    ensures Increasing(list)
  {
  }

  lemma {:induction false} RemovedMembers(list: seq<nat>, m: nat)
    requires m < |list| && forall i, j :: 0 <= i < j < |list| ==> list[i] != list[j]
    ensures forall x :: x in Removed(list, m) <==> x in list && x != list[m]
  {
    forall x | x in list && x != list[m] ensures x in Removed(list, m) {
      var j :| 0 <= j < |list| && list[j] == x;
      assert Removed(list, m)[if j < m then j else j - 1] == x;
    }
  }

  lemma {:induction false} StartGood(h: Heap, g: Heap, arena: set<nat>)
    requires g == Start(h)
    requires if h.list == [] then h.blocks == {} && arena == {} else Good(h, arena) && Coalesced(h.list, h.size)
    ensures Good(g, arena) && Coalesced(g.list, g.size) && Live(g) == Live(h) && (g == h || Live(h) == {})
  {
  }

  /** The empty header that malloc starts from has no room. */
  lemma {:induction false} StartFits(h: Heap, n: nat)
    requires n >= 1
    ensures NoneFits(Start(h), n) <==> NoneFits(h, n)
    ensures Start(h) == h || NoneFits(h, n)
  {
  }

  lemma {:induction false} MallocQuiet(h0: Heap, start: Heap, h: Heap, g: Heap, arena: set<nat>)
    requires Good(start, arena) && (start == h0 || Live(h0) == {}) && Live(start) == Live(h0) == Live(h)
    requires (h == start || Undisturbed(start, h, Live(h))) && Undisturbed(h, g, Live(h))
    ensures Undisturbed(h0, g, Live(h0))
  {
    forall c | c in Live(start) ensures c in start.size && start.size[c] >= 1 { LiveOnly(start, arena, c); }
    if h != start { UndisturbedTrans(start, h, g, Live(h)); }
  }

  /** The first fit is not the static header, so its predecessor on the walk precedes it in the list. */
  lemma {:induction false} FoundAt(h: Heap, arena: set<nat>, f: nat, n: nat, j: nat) returns (m: nat)
    requires Good(h, arena) && n >= 1 && FirstFit(h, f, n, j)
    ensures 1 <= m < |h.list| && h.list[m] == At(h.list, f, j) && h.list[m - 1] == At(h.list, f, j - 1)
    ensures h.list[m] in h.size && h.list[m] in h.ptr && n <= h.size[h.list[m]]
  {
    hide Covered;
    m := if f + j < |h.list| then f + j else f + j - |h.list|;
  }

  /** The heap has grown by what sbrk gave, and nothing in the program's hands has changed. */
  ghost predicate More(h: Heap, g: Heap, arena: set<nat>, arena': set<nat>, core: int, n: nat) {
    && Obtained(arena, arena', core, Max(n, NALLOC))
    && Live(g) == Live(h) && Undisturbed(h, g, Live(g))
  }

  /** Following ptr from the k-th block of the walk leads to the next; only the last is list[f]. */
  lemma {:induction false} Steps(h: Heap, arena: set<nat>, f: nat, k: nat)
    requires Good(h, arena) && f < |h.list| && k <= |h.list|
    ensures var x := At(h.list, f, k);
            && x in h.size && x in h.ptr && x >= BASE
            && (k == 0 || k == |h.list| ==> x == h.list[f]) && (0 < k < |h.list| ==> x != h.list[f])
            && (k < |h.list| ==> h.ptr[x] == At(h.list, f, k + 1) && h.ptr[x] in h.size)
  {
    hide Tiling;
    GoodCircle(h, arena);
    AtNext(h.list, h.ptr, f, k);
    if k < |h.list| { AtNext(h.list, h.ptr, f, k + 1); }
  }

  /** No free block has room for n units. */
  predicate NoneFits(h: Heap, n: nat) {
    forall c :: c in h.list && c in h.size ==> h.size[c] < n
  }

  lemma {:induction false} Restart(h: Heap, freep: nat, n: nat) returns (f: nat, fit: nat)
    requires freep in h.list && exists c :: c in h.list && c in h.size && h.size[c] >= n
    ensures f < |h.list| && h.list[f] == freep && 1 <= fit <= |h.list| && RoomAt(h, f, n, fit)
  {
    f :| 0 <= f < |h.list| && h.list[f] == freep;
    var c :| c in h.list && c in h.size && h.size[c] >= n;
    fit := AtAll(h.list, f, c);
  }

  lemma {:induction false} NoRoom(h: Heap, f: nat, n: nat)
    requires f < |h.list| && forall k :: 1 <= k <= |h.list| ==> !RoomAt(h, f, n, k)
    ensures NoneFits(h, n)
  {
    forall c | c in h.list && c in h.size ensures h.size[c] < n {
      var k := AtAll(h.list, f, c);
      assert !RoomAt(h, f, n, k);
    }
  }

  lemma {:induction false} MorecoreQuiet(h: Heap, g: Heap, k: Heap, arena: set<nat>, hp: nat)
    requires Good(h, arena) && Undisturbed(h, g, Live(h)) && Undisturbed(g, k, Live(g) - {hp})
    requires Live(g) == Live(h) + {hp} && hp !in h.blocks
    ensures Undisturbed(h, k, Live(h)) && Live(g) - {hp} == Live(h)
  {
    forall c | c in Live(h) ensures c in h.size && h.size[c] >= 1 { LiveOnly(h, arena, c); }
    assert Live(g) - {hp} == Live(h);
    UndisturbedTrans(h, g, k, Live(h));
  }
}
