/** Page tables and the page allocator, in the form in which kernel/vm.c and kernel/kalloc.c run:
    physical memory and the head of the free list are updated in place. */
module Vm {
  import opened Common
  import opened VmState

  const PGSIZE := 4096
  const KERNBASE := KPAGE * PGSIZE

  /** How mappages ends: it returns 0, it returns -1, or it panics over a page mapped already. */
  datatype Mapping = Mapped | NoMemory | Remap

  /** How copying one page ends; a missing page is a panic. */
  datatype Copying = Copy | NoCore | Missing

  /** PGROUNDUP, as a page number. */
  function PagesUp(sz: nat): nat { (sz + PGSIZE - 1) / PGSIZE }

  // ---- The kernel's part of every address space ----

  const EXTMEM := 0x100           // in pages, as below
  const PHYSTOP := 0xE000
  const DEVSPACE := 0xFE000

  /** n virtual pages from v on are mapped to physical pages from pa on. */
  datatype Region = Region(v: nat, n: nat, pa: nat, perm: int)

  /** The table kmap; data is the page at which the kernel's data starts. */
  function Kmap(data: nat): seq<Region>
    requires KPAGE + EXTMEM < data < KPAGE + PHYSTOP
  {
    [Region(KPAGE, EXTMEM, 0, PTE_W),
     Region(KPAGE + EXTMEM, data - (KPAGE + EXTMEM), EXTMEM, 0),
     Region(data, KPAGE + PHYSTOP - data, data - KPAGE, PTE_W),
     Region(DEVSPACE, NPAGES - DEVSPACE, DEVSPACE, PTE_W)]
  }

  predicate Within(g: Region, w: nat) { g.v <= w < g.v + g.n }

  /** What virtual page w maps to under a list of regions. */
  function KernelPte(regions: seq<Region>, w: nat): Entry {
    if regions == [] then Absent
    else
      var g := regions[|regions| - 1];
      if Within(g, w) then Present(g.pa + (w - g.v), g.perm) else KernelPte(regions[..|regions| - 1], w)
  }

  lemma {:induction false} KmapRegions(data: nat)
    requires KPAGE + EXTMEM < data < KPAGE + PHYSTOP
    ensures forall k :: 0 <= k < 4 ==>
      var g := Kmap(data)[k]; KPAGE <= g.v && g.n >= 1 && g.v + g.n <= NPAGES
    ensures forall j, k :: 0 <= j < k < 4 ==> Kmap(data)[j].v + Kmap(data)[j].n <= Kmap(data)[k].v
  {
  }

  /** What the kernel maps page w to: physical memory at KERNBASE, read-only where the text is, and the
      devices at their own addresses; nothing for user processes. */
  function KernelEntry(data: nat, w: nat): Entry {
    if KPAGE <= w < KPAGE + PHYSTOP then Present(w - KPAGE, if KPAGE + EXTMEM <= w < data then 0 else PTE_W)
    else if DEVSPACE <= w < NPAGES then Present(w, PTE_W)
    else Absent
  }

  /** The table kmap says so. */
  lemma {:induction false} KernelPtes(data: nat)
    requires KPAGE + EXTMEM < data < KPAGE + PHYSTOP
    ensures forall w :: 0 <= w < NPAGES ==> KernelPte(Kmap(data), w) == KernelEntry(data, w)
  {
    var q := Kmap(data);
    assert q[..3] == [q[0], q[1], q[2]] && q[..3][..2] == [q[0], q[1]] && q[..3][..2][..1] == [q[0]];
    forall w | 0 <= w < NPAGES ensures KernelPte(q, w) == KernelEntry(data, w) {
      assert KernelPte(q[..3][..2], w) == if Within(q[1], w) then Present(q[1].pa + (w - q[1].v), q[1].perm)
                                          else KernelPte([q[0]], w);
    }
  }

  lemma {:induction false} Unmapped(regions: seq<Region>, w: nat)
    requires forall k :: 0 <= k < |regions| ==> !Within(regions[k], w)
    ensures KernelPte(regions, w) == Absent
    decreases |regions|
  {
    if regions != [] { Unmapped(regions[..|regions| - 1], w); }
  }

  class Memory<D(0)> {
    var mem: seq<Page<D>>
    var freelist: nat
    ghost var role: seq<Role>
    ghost var list: seq<nat>

    ghost predicate Valid()
      reads this
    {
      Inv(mem, role, freelist, list)
    }

    /** An address space. */
    ghost predicate Space(d: nat)
      reads this
    {
      Valid() && d < |role| && role[d] == Dir
    }

    /** kinit1, kinit2: the pages from first to the end of memory go to the free list. */
    constructor (n: nat, first: nat)
      requires 0 < first <= n
      ensures Valid() && |role| == n && forall f :: 0 <= f < n ==> role[f] == if f < first then Other else Free
    {
      mem := seq(n, _ => Run(0));
      freelist, role, list := 0, seq(n, _ => Other), [];
      new;
      var p := first;
      while p < n
        invariant first <= p <= n && Valid() && |role| == n
        invariant forall f :: 0 <= f < n ==> role[f] == if first <= f < p then Free else Other
      {
        Kfree(p);
        p := p + 1;
      }
    }

    method Kalloc() returns (f: nat)
      requires Valid()
      modifies this`freelist, this`role, this`list
      ensures Valid() && f == old(freelist) && (f == 0 <==> forall k :: 0 <= k < |role| ==> old(role)[k] != Free)
      ensures f == 0 ==> role == old(role)
      ensures f != 0 ==> f < |role| && old(role)[f] == Free && role == old(role)[f := Other]
      ensures if f == 0 then NFree(role) == 0 else NFree(role) + 1 == old(NFree(role))
    {
      AllocKeeps(mem, role, freelist, list);
      NoneFree(role);
      f := freelist;
      if f != 0 {
        freelist := mem[f].next;
        Handed(role, f, Other);
        role, list := role[f := Other], list[1..];
      }
    }

    method Kfree(f: nat)
      requires Valid() && 0 < f < |role| && role[f] == Other
      modifies this
      ensures Valid() && role == old(role)[f := Free] && mem == old(mem)[f := Run(old(freelist))]
      ensures NFree(role) == old(NFree(role)) + 1
    {
      Handed(role, f, Free);
      FreeKeeps(mem, role, freelist, list, f);
      mem := mem[f := Run(freelist)];
      freelist := f;
      role, list := role[f := Free], [f] + list;
    }

    /** walkpgdir: the table for directory entry i, made if alloc says so; 0 if there is none. */
    method Walk(d: nat, i: nat, alloc: bool) returns (t: nat)
      requires Space(d) && i < NENT
      modifies this
      ensures Space(d) && Beside(old(mem), old(role), mem, role, d, 0) && UsersKept(old(mem), old(role), mem, role)
      ensures t != 0 ==> t < |role| && role[t] == Tab(d, i)
      ensures t == 0 || old(role)[t] == role[t] ==> role == old(role) && mem == old(mem)
      ensures t != 0 && old(role)[t] != role[t] ==>
        alloc && old(role)[t] == Free && role == old(role)[t := Tab(d, i)] && mem[t] == Table(EMPTY)
      ensures forall v :: 0 <= v < NPAGES ==> Pte(mem, role, d, v) == old(Pte(mem, role, d, v))
      ensures t == 0 ==> forall v :: 0 <= v < NPAGES && v / NENT == i ==> Pte(mem, role, d, v) == Absent
      ensures Counted(old(mem), old(role), mem, role, d, if t == 0 then {} else {i}, 0)
      ensures t == 0 ==> i !in Tables(mem[d]) && (alloc ==> NFree(role) == 0)
    {
      hide NFree, Tables;
      Targets(mem, role, d);
      TablesPut(mem, d, i, Present(0, 0));
      if Ent(mem, d, i).Present? {
        assert Tables(mem[d]) + {i} == Tables(mem[d]);
        return Ent(mem, d, i).page;
      }
      if !alloc {
        return 0;
      }
      t := NewTable(d, i);
    }

    /** The part of walkpgdir that makes a table. */
    method NewTable(d: nat, i: nat) returns (t: nat)
      requires Space(d) && i < NENT && i !in Tables(mem[d])
      modifies this
      ensures Space(d) && Beside(old(mem), old(role), mem, role, d, 0) && UsersKept(old(mem), old(role), mem, role)
      ensures t == 0 ==> role == old(role) && mem == old(mem) && NFree(role) == 0
      ensures t != 0 ==>
        && t < |role| && old(role)[t] == Free && role == old(role)[t := Tab(d, i)] && mem[t] == Table(EMPTY)
        && NFree(role) + 1 == old(NFree(role)) && Tables(mem[d]) == old(Tables(mem[d])) + {i}
      ensures forall v :: 0 <= v < NPAGES ==> Pte(mem, role, d, v) == old(Pte(mem, role, d, v))
    {
      hide NFree, Tables;
      Targets(mem, role, d);
      t := Kalloc();
      if t == 0 {
        return;
      }
      FillKeeps(mem, role, freelist, list, t, Table(EMPTY));
      mem := mem[t := Table(EMPTY)];
      TablesPut(mem, d, i, Present(t, TABLE_FLAGS));
      Handed(role, t, Tab(d, i));
      TableKeeps(mem, role, freelist, list, d, i, t);
      mem := Put(mem, d, i, Present(t, TABLE_FLAGS));
      role := role[t := Tab(d, i)];
    }

    /** The store of one page table entry, by mappages. */
    method SetEntry(d: nat, t: nat, v: nat, pa: nat, flags: int)
      requires Space(d) && v < NPAGES && t < |role| && role[t] == Tab(d, v / NENT) && Pte(mem, role, d, v) == Absent
      requires v < KPAGE ==> 0 < pa < |role| && role[pa] == Other && mem[pa].Data?
      modifies this`mem, this`role
      ensures Space(d) && Beside(old(mem), old(role), mem, role, d, if v < KPAGE then pa else 0)
      ensures UsersKept(old(mem), old(role), mem, role)
      ensures role == if v < KPAGE then old(role)[pa := User(d, v / NENT, v % NENT)] else old(role)
      ensures v < KPAGE ==> mem[pa] == old(mem)[pa]
      ensures mem[d] == old(mem)[d] && NFree(role) == old(NFree(role))
      ensures forall w :: 0 <= w < NPAGES ==>
        Pte(mem, role, d, w) == if w == v then Present(pa, flags) else old(Pte(mem, role, d, w))
    {
      hide Linked, NFree;
      ghost var m, r := mem, role;
      Targets(mem, role, d);
      Targets(mem, role, t);
      TableEntry(mem, role, d, t, v);
      if v < KPAGE {
        UserKeeps(mem, role, freelist, list, t, v % NENT, pa, flags);
        Handed(role, pa, User(d, v / NENT, v % NENT));
        role := role[pa := User(d, v / NENT, v % NENT)];
      } else {
        KernelKeeps(mem, role, freelist, list, t, v % NENT, Present(pa, flags));
      }
      PutChanges(mem, t, v % NENT, Present(pa, flags));
      mem := Put(mem, t, v % NENT, Present(pa, flags));
      forall w | 0 <= w < NPAGES
        ensures Pte(mem, role, d, w) == if w == v then Present(pa, flags) else Pte(m, r, d, w)
      {
        PtePut(m, r, mem, role, d, t, v, w);
      }
    }

    /** One round of mappages. */
    method MapOne(d: nat, v: nat, pa: nat, flags: int) returns (r: Mapping)
      requires Space(d) && v < NPAGES
      requires v < KPAGE ==> 0 < pa < |role| && role[pa] == Other && mem[pa].Data?
      modifies this
      ensures Space(d) && Beside(old(mem), old(role), mem, role, d, if v < KPAGE then pa else 0)
      ensures UsersKept(old(mem), old(role), mem, role)
      ensures TablesAdded(old(role), role, d, if v < KPAGE then pa else 0)
      ensures v < KPAGE ==>
        mem[pa] == old(mem)[pa] && role[pa] == if r.Mapped? then User(d, v / NENT, v % NENT) else Other
      ensures r.Remap? <==> old(Pte(mem, role, d, v)).Present?
      ensures Counted(old(mem), old(role), mem, role, d, if r.NoMemory? then {} else {v / NENT}, 0)
      ensures r.NoMemory? ==> NFree(role) == 0 && v / NENT !in Tables(mem[d])
      ensures forall w :: 0 <= w < NPAGES ==>
        Pte(mem, role, d, w) == if w == v && r.Mapped? then Present(pa, flags) else old(Pte(mem, role, d, w))
    {
      hide Owned, FreeList, NFree, Tables;
      var t := Walk(d, v / NENT, true);
      if t == 0 {
        return NoMemory;
      }
      TableEntry(mem, role, d, t, v);
      if Ent(mem, t, v % NENT).Present? {
        return Remap;
      }
      SetEntry(d, t, v, pa, flags);
      r := Mapped;
    }

    /** mappages of n pages from virtual page v on, to physical pages from pa on.  User pages are
        mapped one at a time.  done pages are mapped when it returns. */
    method MapPages(d: nat, v: nat, n: nat, pa: nat, perm: int) returns (r: Mapping, ghost done: nat)
      requires Space(d) && n >= 1 && v + n <= NPAGES
      requires v >= KPAGE || (n == 1 && 0 < pa < |role| && role[pa] == Other && mem[pa].Data?)
      modifies this
      ensures Space(d) && Beside(old(mem), old(role), mem, role, d, if v < KPAGE then pa else 0)
      ensures UsersKept(old(mem), old(role), mem, role)
      ensures r.Mapped? == (done == n) && done <= n
      ensures RangeMapped(old(mem), old(role), mem, role, d, v, done, pa, perm)
      ensures done < n ==> (r.Remap? <==> old(Pte(mem, role, d, v + done)).Present?)
      ensures Counted(old(mem), old(role), mem, role, d, Spread(v, if r.Remap? then v + done + 1 else v + done), 0)
      ensures r.NoMemory? ==> NFree(role) == 0 && (v + done) / NENT !in Tables(mem[d])
      ensures TablesAdded(old(role), role, d, if v < KPAGE then pa else 0)
      ensures v < KPAGE ==>
        mem[pa] == old(mem)[pa] && role[pa] == if r.Mapped? then User(d, v / NENT, v % NENT) else Other
    {
      hide Owned, FreeList, NFree, Tables, Spread, Counted, RangeMapped, TablesAdded, UsersKept, Beside;
      ghost var m, q := mem, role;
      RangeSelf(m, q, d, v, pa, perm);
      SpreadNext(v, v);
      CountedSelf(m, q, d);
      ghost var x := if v < KPAGE then pa else 0;
      done := 0;
      var a, p := v, pa;
      while true
        invariant Space(d) && done < n && a == v + done && p == pa + done && Beside(m, q, mem, role, d, x)
        invariant TablesAdded(q, role, d, x) && UsersKept(m, q, mem, role)
        invariant v < KPAGE ==> pa < |role| && role[pa] == Other && mem[pa] == m[pa]
        invariant RangeMapped(m, q, mem, role, d, v, done, pa, perm) && Counted(m, q, mem, role, d, Spread(v, a), 0)
        decreases n - done
      {
        ghost var m1, r1 := mem, role;
        SpreadNext(v, a);
        r := MapOne(d, a, p, perm);
        CountedTrans(m, q, m1, r1, mem, role, d, Spread(v, a), if r.NoMemory? then {} else {a / NENT}, 0, 0);
        RangeNext(m, q, m1, r1, mem, role, d, v, done, pa, perm, r.Mapped?);
        AddedTrans(m, q, m1, r1, mem, role, d, x);
        BesideTrans(m, q, m1, r1, mem, role, d, x, x, x);
        if !r.Mapped? {
          return;
        }
        done := done + 1;
        if a == v + n - 1 {
          return;
        }
        a, p := a + 1, p + 1;
      }
    }

    /** kfree of the user page under entry v and clearing of the entry, as in deallocuvm. */
    method FreeUser(d: nat, t: nat, v: nat)
      requires Space(d) && v < KPAGE && t < |role| && role[t] == Tab(d, v / NENT) && Pte(mem, role, d, v).Present?
      modifies this
      ensures Space(d) && Beside(old(mem), old(role), mem, role, d, 0)
      ensures old(Pte(mem, role, d, v)).page < |role| && role == old(role)[old(Pte(mem, role, d, v)).page := Free]
      ensures old(role)[old(Pte(mem, role, d, v)).page] == User(d, v / NENT, v % NENT)
      ensures forall f :: 0 <= f < |role| && role[f].User? ==> mem[f] == old(mem)[f]
      ensures forall w :: 0 <= w < NPAGES ==>
            Pte(mem, role, d, w) == if w == v then Absent else old(Pte(mem, role, d, w))
    {
      hide Linked;
      ghost var m, r := mem, role;
      var j := v % NENT;
      TableEntry(mem, role, d, t, v);
      Targets(mem, role, t);
      UnmapKeeps(mem, role, freelist, list, t, j);
      PutChanges(mem, t, j, Absent);
      var f := Ent(mem, t, j).page;
      mem := Put(mem, t, j, Absent);
      role := role[f := Other];
      forall w | 0 <= w < NPAGES ensures Pte(mem, role, d, w) == if w == v then Absent else Pte(m, r, d, w) {
        PtePut(m, r, mem, role, d, t, v, w);
      }
      ghost var m1, r1 := mem, role;
      Kfree(f);
      forall w | 0 <= w < NPAGES ensures Pte(mem, role, d, w) == Pte(m1, r1, d, w) {
        PteFrame(m1, r1, mem, role, d, w);
      }
    }

    /** deallocuvm: exactly the user pages from newsz rounded up to below oldsz are unmapped and
        freed, although whole missing tables are skipped 4 MB at a time. */
    method Deallocuvm(d: nat, oldsz: nat, newsz: nat) returns (sz: nat)
      requires Space(d) && oldsz <= KERNBASE
      modifies this
      ensures sz == if newsz >= oldsz then oldsz else newsz
      ensures Space(d) && Beside(old(mem), old(role), mem, role, d, 0)
      ensures Freed(old(role), role, d, PagesUp(newsz), PagesUp(oldsz))
      ensures forall f :: 0 <= f < |role| && role[f].User? ==> mem[f] == old(mem)[f]
      ensures forall w :: 0 <= w < NPAGES ==>
        Pte(mem, role, d, w) == if PagesUp(newsz) <= w < PagesUp(oldsz) then Absent else old(Pte(mem, role, d, w))
    {
      hide Owned, FreeList, NFree, Tables, Counted, UsersKept;
      PagesMono(newsz, oldsz);
      if newsz >= oldsz {
        return oldsz;
      }
      ghost var m, r := mem, role;
      ghost var lo, hi := PagesUp(newsz), PagesUp(oldsz);
      var a := PagesUp(newsz);
      while a * PGSIZE < oldsz
        invariant Space(d) && Beside(m, r, mem, role, d, 0) && lo <= a && Freed(r, role, d, lo, a)
        invariant forall f :: 0 <= f < |role| && role[f].User? ==> mem[f] == m[f]
        invariant a <= hi || forall w :: hi <= w < a && w < NPAGES ==> Pte(m, r, d, w) == Absent
        invariant forall w :: 0 <= w < NPAGES ==>
              Pte(mem, role, d, w) == if lo <= w < a then Absent else Pte(m, r, d, w)
        decreases hi - a
      {
        Below(a, oldsz);
        ghost var m1, r1 := mem, role;
        var t := Walk(d, a / NENT, false);
        BesideTrans(m, r, m1, r1, mem, role, d, 0, 0, 0);
        if t == 0 {
          NextTable(a);
          var b := (a / NENT + 1) * NENT;
          FreedSkip(mem, role, r, d, lo, a, b);
          a := b;
        } else {
          TableEntry(mem, role, d, t, a);
          if Ent(mem, t, a % NENT).Present? {
            m1, r1 := mem, role;
            FreeUser(d, t, a);
            FreedOne(m1, r1, r, d, lo, a);
            BesideTrans(m, r, m1, r1, mem, role, d, 0, 0, 0);
          } else {
            FreedSkip(mem, role, r, d, lo, a, a + 1);
          }
          a := a + 1;
        }
      }
      Below(a, oldsz);
      FreedTrim(m, r, role, d, lo, hi, a);
      sz := newsz;
    }

    /** freevm: the directory, its tables and its user pages, and nothing else, go to the free list. */
    method Freevm(d: nat)
      requires Space(d)
      modifies this
      ensures Valid() && Beside(old(mem), old(role), mem, role, d, 0)
      ensures TornDown(old(role), role, d)
    {
      hide Owned, FreeList;
      ghost var m, r := mem, role;
      var sz := Deallocuvm(d, KERNBASE, 0);
      ghost var r0 := role;
      ghost var m0 := mem;
      AllUsers(m, r, r0, d);
      TableIndices(m, r);
      Targets(mem, role, d);
      GivenKeeps(mem, role, freelist, list, d);
      role := Given(role, d);
      var i := 0;
      while i < NENT
        invariant Valid() && i <= NENT && |role| == |r0| && IsTable(mem, d) && mem[d] == m0[d]
        invariant forall f :: 0 <= f < |r0| ==>
          role[f] == if r0[f].Tab? && r0[f].d == d && r0[f].i < i then Free else Given(r0, d)[f]
        invariant Beside(m0, r0, mem, role, d, 0)
      {
        if Ent(mem, d, i).Present? {
          TableUnique(m0, r0, d, i);
          Kfree(Ent(mem, d, i).page);
        } else {
          TableUnique(m0, r0, d, i);
        }
        i := i + 1;
      }
      Kfree(d);
      BesideTrans(m, r, m0, r0, mem, role, d, 0, 0, 0);
    }

    /** setupkvm: a new address space with exactly the kernel's mappings, or no change in who owns
        which page. */
    method Setupkvm(data: nat) returns (d: nat)
      requires Valid() && KPAGE + EXTMEM < data < KPAGE + PHYSTOP
      modifies this
      ensures Valid() && Beside(old(mem), old(role), mem, role, d, 0)
      ensures d == 0 ==> role == old(role)
      ensures d == 0 <==> old(NFree(role)) < 1 + |KernelTables(data)|
      ensures d != 0 ==>
        && Space(d) && old(role)[d] == Free && Built(old(role), role, d)
        && Laid(old(role), mem, role, d, KernelTables(data), 0)
        && (forall w :: 0 <= w < NPAGES ==> Pte(mem, role, d, w) == KernelEntry(data, w))
    {
      hide Owned, FreeList, NFree, Tables, Counted, Spread, UsersKept, TornDown;
      ghost var m, r := mem, role;
      d := NewDir();
      if d == 0 {
        return;
      }
      KmapRegions(data);
      var k := 0;
      while k < 4
        invariant 0 <= k <= 4 && Space(d) && r[d] == Free && Built(r, role, d) && Beside(m, r, mem, role, d, 0)
        invariant forall w :: 0 <= w < NPAGES ==> Pte(mem, role, d, w) == KernelPte(Kmap(data)[..k], w)
        invariant Laid(r, mem, role, d, RegionTables(Kmap(data)[..k]), 0)
      {
        var mapped := MapRegion(d, data, k, m, r);
        if !mapped {
          ghost var m1, r1 := mem, role;
          Freevm(d);
          Restored(m, r, r1, role, d);
          BesideTrans(m, r, m1, r1, mem, role, d, 0, 0, 0);
          BesideAll(m, r, mem, role, d);
          return 0;
        }
        k := k + 1;
      }
      assert Kmap(data)[..4] == Kmap(data);
      KernelPtes(data);
    }

    /** One round of setupkvm, on what has been built since memory was m, with roles r. */
    method MapRegion(d: nat, data: nat, k: nat, ghost m: seq<Page<D>>, ghost r: seq<Role>) returns (ok: bool)
      requires KPAGE + EXTMEM < data < KPAGE + PHYSTOP && k < 4
      requires Space(d) && d < |r| && r[d] == Free && Built(r, role, d) && Beside(m, r, mem, role, d, 0)
      requires forall w :: 0 <= w < NPAGES ==> Pte(mem, role, d, w) == KernelPte(Kmap(data)[..k], w)
      requires Laid(r, mem, role, d, RegionTables(Kmap(data)[..k]), 0)
      modifies this
      ensures Space(d) && Built(r, role, d) && Beside(m, r, mem, role, d, 0)
      ensures ok ==> forall w :: 0 <= w < NPAGES ==> Pte(mem, role, d, w) == KernelPte(Kmap(data)[..k + 1], w)
      ensures ok ==> Laid(r, mem, role, d, RegionTables(Kmap(data)[..k + 1]), 0)
      ensures !ok ==> NFree(r) < 1 + |KernelTables(data)|
    {
      hide Owned, FreeList, NFree, Tables, Counted, Spread, UsersKept, Laid, RegionTables;
      KmapRegions(data);
      var g := Kmap(data)[k];
      forall w | g.v <= w < g.v + g.n ensures Pte(mem, role, d, w) == Absent {
        Unmapped(Kmap(data)[..k], w);
      }
      assert Kmap(data)[..k + 1] == Kmap(data)[..k] + [g];
      NextRegion(Kmap(data), k);
      ghost var m1, r1 := mem, role;
      var ret, done := MapPages(d, g.v, g.n, g.pa, g.perm);
      assert !ret.Remap?;
      LaidMore(r, m1, r1, mem, role, d, RegionTables(Kmap(data)[..k]), 0, Spread(g.v, g.v + done), 0);
      BesideTrans(m, r, m1, r1, mem, role, d, 0, 0, 0);
      ok := ret.Mapped?;
      if !ok {
        LaidShort(r, mem, role, d, data, k, done);
      }
    }

    /** The first steps of setupkvm. */
    method NewDir() returns (d: nat)
      requires Valid()
      modifies this
      ensures Valid() && Beside(old(mem), old(role), mem, role, d, 0)
      ensures d == 0 ==> role == old(role)
      ensures d != 0 ==>
        && Space(d) && old(role)[d] == Free && role == old(role)[d := Dir]
        && (forall w :: 0 <= w < NPAGES ==> Pte(mem, role, d, w) == Absent)
      ensures if d == 0 then NFree(role) == 0 else Laid(old(role), mem, role, d, {}, 0)
    {
      hide Linked;
      d := Kalloc();
      if d != 0 {
        FillKeeps(mem, role, freelist, list, d, Table(EMPTY));
        mem := mem[d := Table(EMPTY)];
        DirKeeps(mem, role, freelist, list, d);
        Handed(role, d, Dir);
        role := role[d := Dir];
      }
    }

    /** One round of copyuvm: a copy of page i of pgdir goes to the same place of d. */
    method CopyPage(pgdir: nat, d: nat, i: nat) returns (r: Copying)
      requires Space(d) && Space(pgdir) && d != pgdir && i < KPAGE && Pte(mem, role, d, i) == Absent
      modifies this
      ensures Space(d) && Beside(old(mem), old(role), mem, role, d, 0) && UsersKept(old(mem), old(role), mem, role)
      ensures Built(old(role), role, d)
      ensures forall w :: 0 <= w < NPAGES && w != i ==> Pte(mem, role, d, w) == old(Pte(mem, role, d, w))
      ensures r.Missing? <==> old(Pte(mem, role, pgdir, i)) == Absent
      ensures if r.Copy? then Copied(old(mem), old(role), pgdir, mem, role, d, i) else Pte(mem, role, d, i) == Absent
      ensures r.Copy? ==> Counted(old(mem), old(role), mem, role, d, {i / NENT}, 1)
      ensures r.NoCore? ==> Counted(old(mem), old(role), mem, role, d, {}, 0) && Short(mem, role, d, i)
    {
      hide Owned, FreeList, Short;
      var t := Walk(pgdir, i / NENT, false);
      if t == 0 {
        return Missing;
      }
      TableEntry(mem, role, pgdir, t, i);
      var pte := Ent(mem, t, i % NENT);
      if !pte.Present? {
        return Missing;
      }
      PteUser(mem, role, pgdir, i);
      var ret := Attach(d, i, mem[pte.page], pte.flags);
      r := if ret.Mapped? then Copy else NoCore;
    }

    /** kalloc, fill and mappages for one user page, as allocuvm and copyuvm do it. */
    method Attach(d: nat, i: nat, page: Page<D>, flags: int) returns (r: Mapping)
      requires Space(d) && i < KPAGE && page.Data?
      modifies this
      ensures r.Remap? ==> old(Pte(mem, role, d, i)).Present?
      ensures !r.Remap? ==>
        && Space(d) && Beside(old(mem), old(role), mem, role, d, 0) && UsersKept(old(mem), old(role), mem, role)
        && UserAdded(old(role), role, d, i)
        && (forall w :: 0 <= w < NPAGES && w != i ==> Pte(mem, role, d, w) == old(Pte(mem, role, d, w)))
      ensures r.NoMemory? ==>
        Pte(mem, role, d, i) == old(Pte(mem, role, d, i)) && TablesAdded(old(role), role, d, 0)
      ensures r.Mapped? ==>
        && old(Pte(mem, role, d, i)) == Absent
        && var e := Pte(mem, role, d, i);
           e.Present? && e.page < |role| && e.flags == flags && old(role)[e.page] == Free && mem[e.page] == page
      ensures r.Mapped? ==> Counted(old(mem), old(role), mem, role, d, {i / NENT}, 1)
      ensures r.NoMemory? ==> Counted(old(mem), old(role), mem, role, d, {}, 0) && Short(mem, role, d, i)
    {
      hide Owned, FreeList, NFree, Tables, Spread;
      ghost var m, q := mem, role;
      SpreadNext(i, i);
      var f := Kalloc();
      if f == 0 {
        return NoMemory;
      }
      FillKeeps(mem, role, freelist, list, f, page);
      mem := mem[f := page];
      PtesSame(m, q, mem, role, d, f);
      ghost var done;
      r, done := MapPages(d, i, 1, f, flags);
      if r.NoMemory? {
        ghost var m1, r1 := mem, role;
        Kfree(f);
        PtesSame(m1, r1, mem, role, d, f);
      }
    }

    /** copyuvm: every page below sz is copied with its contents and flags to a page that was free,
        in an address space with nothing else but the kernel's mappings; nothing that was in use
        changes.  If memory runs out, every page is back where it was. */
    method Copyuvm(pgdir: nat, sz: nat, data: nat) returns (d: nat, panics: bool)
      requires Space(pgdir) && sz <= KERNBASE && KPAGE + EXTMEM < data < KPAGE + PHYSTOP
      modifies this
      ensures panics ==> exists w :: 0 <= w < PagesUp(sz) && w < NPAGES && old(Pte(mem, role, pgdir, w)) == Absent
      ensures !panics ==> Valid() && Beside(old(mem), old(role), mem, role, 0, 0)
      ensures !panics && d == 0 ==> role == old(role)
      ensures !panics ==> (d == 0 <==> old(NFree(role)) < CopyNeeds(PagesUp(sz)))
      ensures !panics && d != 0 ==>
        && Space(d) && old(role)[d] == Free && Built(old(role), role, d)
        && (forall w :: 0 <= w < PagesUp(sz) ==> Copied(old(mem), old(role), pgdir, mem, role, d, w))
        && (forall w :: PagesUp(sz) <= w < NPAGES ==> Pte(mem, role, d, w) == KernelEntry(data, w))
    {
      hide Owned, FreeList, Copied, NFree, Counted, Laid, Short, CopyNeeds, KernelTables, Spread, UsersKept, TornDown;
      ghost var m, r := mem, role;
      PagesMono(0, sz);
      KernelNeeds(data);
      SpreadNext(0, 0);
      Shortage(r, data, PagesUp(sz));
      UserUnmapped(data);
      panics := false;
      d := Setupkvm(data);
      if d == 0 {
        return;
      }
      var i := 0;
      assert KernelTables(data) + Spread(0, 0) == KernelTables(data);
      while i * PGSIZE < sz
        invariant 0 <= i <= PagesUp(sz) && HalfCopied(m, r, pgdir, d, i, data)
      {
        Below(i, sz);
        var ret := CopyRound(m, r, pgdir, d, i, data, PagesUp(sz));
        if ret.Missing? {
          return 0, true;
        }
        if ret.NoCore? {
          ghost var m1, r1 := mem, role;
          Freevm(d);
          Restored(m, r, r1, role, d);
          BesideTrans(m, r, m1, r1, mem, role, d, 0, 0, 0);
          BesideAll(m, r, mem, role, d);
          return 0, false;
        }
        i := i + 1;
      }
      Below(i, sz);
      EnoughCopy(r, mem, role, d, data, i);
      BesideAll(m, r, mem, role, d);
    }

    /** What copyuvm has built after i pages, since memory was m with roles r. */
    ghost predicate HalfCopied(m: seq<Page<D>>, r: seq<Role>, pgdir: nat, d: nat, i: nat, data: nat)
      requires Owned(m, r) && pgdir < |r| && r[pgdir] == Dir && KPAGE + EXTMEM < data < KPAGE + PHYSTOP && i <= KPAGE
      reads this
    {
      && Space(d) && d < |r| && r[d] == Free && Built(r, role, d) && Beside(m, r, mem, role, d, 0)
      && (forall w :: 0 <= w < i ==> Copied(m, r, pgdir, mem, role, d, w))
      && (forall w :: i <= w < NPAGES ==> Pte(mem, role, d, w) == KernelEntry(data, w))
      && Laid(r, mem, role, d, KernelTables(data) + Spread(0, i), i)
    }

    /** One round of copyuvm, which is to copy n pages. */
    method CopyRound(ghost m: seq<Page<D>>, ghost r: seq<Role>, pgdir: nat, d: nat, i: nat, data: nat, ghost n: nat)
      returns (ret: Copying)
      requires Owned(m, r) && pgdir < |r| && r[pgdir] == Dir && KPAGE + EXTMEM < data < KPAGE + PHYSTOP
      requires i < n <= KPAGE && HalfCopied(m, r, pgdir, d, i, data)
      modifies this
      ensures Space(d) && Built(r, role, d) && Beside(m, r, mem, role, d, 0)
      ensures ret.Missing? <==> Pte(m, r, pgdir, i) == Absent
      ensures ret.NoCore? ==> NFree(r) < CopyNeeds(n)
      ensures ret.Copy? ==> HalfCopied(m, r, pgdir, d, i + 1, data)
    {
      hide Owned, FreeList, Copied, NFree, Counted, Laid, Short, CopyNeeds, KernelTables, Spread;
      ghost var m1, r1 := mem, role;
      UserUnmapped(data);
      SpreadNext(0, i);
      StillThere(m, r, m1, r1, pgdir, d, i);
      ret := CopyPage(pgdir, d, i);
      BesideTrans(m, r, m1, r1, mem, role, d, 0, 0, 0);
      if ret.NoCore? {
        LaidMore(r, m1, r1, mem, role, d, KernelTables(data) + Spread(0, i), i, {}, 0);
        ShortCopy(r, mem, role, d, data, i, n);
      } else if ret.Copy? {
        CopiesKept(m, r, pgdir, m1, r1, mem, role, d, i);
        LaidMore(r, m1, r1, mem, role, d, KernelTables(data) + Spread(0, i), i, {i / NENT}, 1);
        assert KernelTables(data) + Spread(0, i) + {i / NENT} == KernelTables(data) + Spread(0, i + 1);
      }
    }

    /** No page from oldsz rounded up to below newsz is mapped. */
    ghost predicate Clear(d: nat, oldsz: nat, newsz: nat)
      requires Space(d)
      reads this
    {
      forall w :: PagesUp(oldsz) <= w < PagesUp(newsz) && w < NPAGES ==> Pte(mem, role, d, w) == Absent
    }

    /** allocuvm: zeroed pages are mapped from oldsz rounded up to below newsz, or else the address
        space maps what it mapped before and has at most gained empty tables. */
    method Allocuvm(d: nat, oldsz: nat, newsz: nat, zero: D) returns (sz: nat, panics: bool, ghost ok: bool)
      requires Space(d)
      modifies this
      ensures newsz >= KERNBASE ==> !ok && !panics && mem == old(mem) && role == old(role)
      ensures panics ==> !ok && !old(Clear(d, oldsz, newsz))
      ensures ok && newsz >= oldsz ==> old(Clear(d, oldsz, newsz))
      ensures !panics ==> sz == if !ok then 0 else if newsz < oldsz then oldsz else newsz
      ensures !panics ==> Space(d) && Beside(old(mem), old(role), mem, role, d, 0)
      ensures !panics ==> forall w :: 0 <= w < NPAGES && !(PagesUp(oldsz) <= w < PagesUp(newsz)) ==>
        Pte(mem, role, d, w) == old(Pte(mem, role, d, w))
      ensures !panics && old(Clear(d, oldsz, newsz)) ==> UsersKept(old(mem), old(role), mem, role)
      ensures !ok && old(Clear(d, oldsz, newsz)) ==>
        && !panics && TablesAdded(old(role), role, d, 0)
        && forall w :: 0 <= w < NPAGES ==> Pte(mem, role, d, w) == old(Pte(mem, role, d, w))
      ensures ok ==> forall w :: PagesUp(oldsz) <= w < PagesUp(newsz) ==>
        w < NPAGES && Zeroed(old(role), mem, role, d, w, zero)
      ensures old(Clear(d, oldsz, newsz)) && oldsz <= newsz < KERNBASE ==>
        (ok <==> old(NFree(role) >= GrowNeeds(mem[d], PagesUp(oldsz), PagesUp(newsz))))
    {
      hide Owned, FreeList, NFree, Counted, Short, GrowNeeds, Spread, Tables;
      ghost var m, r := mem, role;
      ghost var lo, clear := PagesUp(oldsz), Clear(d, oldsz, newsz);
      if newsz >= KERNBASE {
        return 0, false, false;
      }
      PagesMono(oldsz, newsz);
      if newsz < oldsz {
        return oldsz, false, true;
      }
      PagesMono(newsz, oldsz);
      CountedSelf(m, r, d);
      SpreadNext(lo, lo);
      var a := PagesUp(oldsz);
      while a * PGSIZE < newsz
        invariant lo <= a <= Max(lo, PagesUp(newsz)) && HalfGrown(m, r, d, lo, a, zero)
      {
        Below(a, newsz);
        var ret := GrowRound(m, r, d, lo, a, zero, PagesUp(newsz));
        if ret.Remap? {
          return 0, true, false;
        }
        if ret.NoMemory? {
          ghost var m1, r1 := mem, role;
          var undone := Deallocuvm(d, newsz, oldsz);
          BesideTrans(m, r, m1, r1, mem, role, d, 0, 0, 0);
          if clear {
            Undone(m, r, r1, role, d, lo, a, PagesUp(newsz));
            UsersStay(m, r, m1, r1, mem, role);
          }
          return 0, false, false;
        }
        a := a + 1;
      }
      Below(a, newsz);
      EnoughGrow(m, r, mem, role, d, lo, a);
      return newsz, false, true;
    }

    /** What allocuvm has built up to page a, since memory was m with roles r. */
    ghost predicate HalfGrown(m: seq<Page<D>>, r: seq<Role>, d: nat, lo: nat, a: nat, zero: D)
      requires Owned(m, r) && d < |r| && r[d] == Dir && lo <= a
      reads this
    {
      && Space(d) && Grown(m, r, d, lo, a)
      && (forall w :: lo <= w < a ==> w < NPAGES && Zeroed(r, mem, role, d, w, zero) && Pte(m, r, d, w) == Absent)
      && Counted(m, r, mem, role, d, Spread(lo, a), a - lo)
    }

    ghost predicate Grown(m: seq<Page<D>>, r: seq<Role>, d: nat, lo: nat, a: nat)
      requires Owned(m, r) && d < |r| && r[d] == Dir && Space(d)
      reads this
    {
      && Beside(m, r, mem, role, d, 0) && UsersKept(m, r, mem, role) && Extended(r, role, d, lo, a)
      && forall w :: 0 <= w < NPAGES && !(lo <= w < a) ==> Pte(mem, role, d, w) == Pte(m, r, d, w)
    }

    /** One round of allocuvm, which is to reach page hi. */
    method GrowRound(ghost m: seq<Page<D>>, ghost r: seq<Role>, d: nat, ghost lo: nat, a: nat, zero: D, ghost hi: nat)
      returns (ret: Mapping)
      requires Owned(m, r) && d < |r| && r[d] == Dir && lo <= a < hi <= KPAGE && HalfGrown(m, r, d, lo, a, zero)
      modifies this
      ensures ret.Remap? ==> Pte(m, r, d, a).Present?
      ensures ret.NoMemory? ==> Space(d) && Grown(m, r, d, lo, a + 1) && NFree(r) < GrowNeeds(m[d], lo, hi)
      ensures ret.NoMemory? ==> Pte(mem, role, d, a) == Pte(m, r, d, a)
      ensures ret.Mapped? ==> HalfGrown(m, r, d, lo, a + 1, zero)
    {
      hide Owned, FreeList, NFree, Counted, Short, GrowNeeds, Spread, Tables;
      SpreadNext(lo, a);
      ghost var m1, r1 := mem, role;
      ret := Attach(d, a, Data(zero), PTE_W + PTE_U);
      if ret.Remap? {
        return;
      }
      BesideTrans(m, r, m1, r1, mem, role, d, 0, 0, 0);
      ExtendedOne(r, r1, role, d, lo, a);
      if ret.NoMemory? {
        CountedTrans(m, r, m1, r1, mem, role, d, Spread(lo, a), {}, a - lo, 0);
        ShortGrow(m, r, mem, role, d, lo, a, hi);
      } else {
        ZeroedKept(r, m1, r1, mem, role, d, lo, a, zero);
        CountedTrans(m, r, m1, r1, mem, role, d, Spread(lo, a), {a / NENT}, a - lo, 1);
      }
    }
  }

  /** The address space of d, on pages free in r, consists of a directory, the tables `tabs` and n
      user pages. */
  ghost predicate Laid<D>(r: seq<Role>, mem: seq<Page<D>>, role: seq<Role>, d: nat, tabs: set<nat>, n: nat) {
    d < |mem| && Tables(mem[d]) == tabs && NFree(role) + 1 + |tabs| + n == NFree(r)
  }

  lemma {:induction false} LaidMore<D>(r: seq<Role>, m1: seq<Page<D>>, r1: seq<Role>, mem: seq<Page<D>>,
                                       role: seq<Role>, d: nat, tabs: set<nat>, n: nat, more: set<nat>, k: nat)
    requires Laid(r, m1, r1, d, tabs, n) && Counted(m1, r1, mem, role, d, more, k)
    ensures Laid(r, mem, role, d, tabs + more, n + k)
  {
  }

  /** The tables of the kernel's regions. */
  ghost function RegionTables(regions: seq<Region>): set<nat> {
    if regions == [] then {}
    else
      var g := regions[|regions| - 1];
      RegionTables(regions[..|regions| - 1]) + Spread(g.v, g.v + g.n)
  }

  ghost function KernelTables(data: nat): set<nat>
    requires KPAGE + EXTMEM < data < KPAGE + PHYSTOP
  {
    RegionTables(Kmap(data))
  }

  /** Out of memory in region k: the tables there are too few for the kernel. */
  lemma {:induction false} LaidShort<D>(r: seq<Role>, mem: seq<Page<D>>, role: seq<Role>, d: nat, data: nat, k: nat,
                                        done: nat)
    requires KPAGE + EXTMEM < data < KPAGE + PHYSTOP && k < 4 && done < Kmap(data)[k].n && NFree(role) == 0
    requires var v := Kmap(data)[k].v;
             && Laid(r, mem, role, d, RegionTables(Kmap(data)[..k]) + Spread(v, v + done), 0)
             && (v + done) / NENT !in Tables(mem[d])
    ensures NFree(r) < 1 + |KernelTables(data)|
  {
    hide Spread, RegionTables, NFree, Tables;
    KmapRegions(data);
    var g := Kmap(data)[k];
    RegionSubset(Kmap(data), k);
    SpreadMono(g.v, g.v + done + 1, g.v + g.n);
    SpreadNext(g.v, g.v + done);
    TooFew(RegionTables(Kmap(data)[..k]) + Spread(g.v, g.v + done), (g.v + done) / NENT, KernelTables(data));
  }

  lemma {:induction false} TooFew(tabs: set<nat>, i: nat, all: set<nat>)
    requires tabs <= all && i in all && i !in tabs
    ensures |tabs| < |all|
  {
    SubsetCard(tabs + {i}, all);
  }

  lemma {:induction false} SpreadMono(lo: nat, mid: nat, hi: nat)
    requires lo <= mid <= hi
    ensures Spread(lo, mid) <= Spread(lo, hi)
  {
  }

  lemma {:induction false} RegionSubset(regions: seq<Region>, k: nat)
    requires k < |regions|
    ensures RegionTables(regions[..k]) + Spread(regions[k].v, regions[k].v + regions[k].n) <= RegionTables(regions)
    decreases |regions|
  {
    var init := regions[..|regions| - 1];
    if k < |init| {
      RegionSubset(init, k);
      assert init[..k] == regions[..k];
    }
  }

  /** The kernel's part of an address space takes 64 tables, wherever its data starts. */
  lemma {:induction false} KernelNeeds(data: nat)
    requires KPAGE + EXTMEM < data < KPAGE + PHYSTOP
    ensures |KernelTables(data)| == 64 && forall i :: i in KernelTables(data) ==> KDIR <= i
  {
    hide RegionTables, Spread;
    var low, high := Spread(512 * NENT, 568 * NENT), Spread(1016 * NENT, NPAGES);
    KernelIndices(data);
    SpreadIs(512, 568);
    SpreadIs(1016, NENT);
    assert KernelTables(data) == low + high;
    CountRange(512, 568, low);
    CountRange(1016, NENT, high);
  }

  lemma {:induction false} SpreadIs(a: nat, b: nat)
    requires a < b <= NENT
    ensures forall i :: i in Spread(a * NENT, b * NENT) <==> a <= i < b
  {
  }

  lemma {:induction false} KernelIndices(data: nat)
    requires KPAGE + EXTMEM < data < KPAGE + PHYSTOP
    ensures forall i :: i in KernelTables(data) <==> 512 <= i < 568 || 1016 <= i < NENT
  {
    var q := Kmap(data);
    assert q[..4] == q && q[..0] == [];
    NextRegion(q, 0);
    NextRegion(q, 1);
    NextRegion(q, 2);
    NextRegion(q, 3);
    hide RegionTables;
  }

  lemma {:induction false} NextRegion(regions: seq<Region>, k: nat)
    requires k < |regions|
    ensures var g := regions[k];
            RegionTables(regions[..k + 1]) == RegionTables(regions[..k]) + Spread(g.v, g.v + g.n)
  {
    assert regions[..k + 1][..k] == regions[..k];
  }

  /** There is no page for a new user page v of d, or none for its table. */
  ghost predicate Short<D>(mem: seq<Page<D>>, role: seq<Role>, d: nat, v: nat) {
    d < |mem| && NFree(role) < 1 + if v / NENT in Tables(mem[d]) then 0 else 1
  }

  /** The pages that copyuvm needs for n user pages: the directory, the kernel's 64 tables, the user
      pages and a table for every 1024 of them. */
  function CopyNeeds(n: nat): nat { 1 + 64 + n + (n + NENT - 1) / NENT }

  lemma {:induction false} CopyTables(data: nat, n: nat)
    requires KPAGE + EXTMEM < data < KPAGE + PHYSTOP && n <= KPAGE
    ensures 1 + |KernelTables(data) + Spread(0, n)| + n == CopyNeeds(n)
  {
    hide KernelTables;
    KernelNeeds(data);
    var low := Spread(0, n);
    assert forall i :: i in low <==> 0 <= i < (n + NENT - 1) / NENT;
    CountRange(0, (n + NENT - 1) / NENT, low);
    assert KernelTables(data) !! low;
  }

  lemma {:induction false} ShortCopy<D>(r: seq<Role>, mem: seq<Page<D>>, role: seq<Role>, d: nat, data: nat, i: nat,
                                        n: nat)
    requires KPAGE + EXTMEM < data < KPAGE + PHYSTOP && i < n <= KPAGE && Short(mem, role, d, i)
    requires Laid(r, mem, role, d, KernelTables(data) + Spread(0, i), i)
    ensures NFree(r) < CopyNeeds(n)
  {
    hide KernelTables, Spread, CopyNeeds, NFree, Tables;
    var tabs, all := KernelTables(data) + Spread(0, i), KernelTables(data) + Spread(0, n);
    SpreadMono(0, i + 1, n);
    SpreadNext(0, i);
    CopyTables(data, n);
    if i / NENT in tabs { SubsetCard(tabs, all); } else { TooFew(tabs, i / NENT, all); }
  }

  lemma {:induction false} EnoughCopy<D>(r: seq<Role>, mem: seq<Page<D>>, role: seq<Role>, d: nat, data: nat, n: nat)
    requires KPAGE + EXTMEM < data < KPAGE + PHYSTOP && n <= KPAGE
    requires Laid(r, mem, role, d, KernelTables(data) + Spread(0, n), n)
    ensures NFree(r) >= CopyNeeds(n)
  {
    hide KernelTables, Spread, CopyNeeds;
    CopyTables(data, n);
  }

  /** Without the pages for the kernel's part there are not enough for a copy. */
  lemma {:induction false} Shortage(r: seq<Role>, data: nat, n: nat)
    requires KPAGE + EXTMEM < data < KPAGE + PHYSTOP
    ensures NFree(r) < 1 + |KernelTables(data)| ==> NFree(r) < CopyNeeds(n)
  {
    hide KernelTables;
    KernelNeeds(data);
  }

  /** The pages that allocuvm needs for user pages lo to below hi: these, and the tables that the
      directory lacks. */
  ghost function GrowNeeds<D>(dir: Page<D>, lo: nat, hi: nat): int { hi - lo + |Spread(lo, hi) - Tables(dir)| }

  lemma {:induction false} ShortGrow<D>(m: seq<Page<D>>, r: seq<Role>, mem: seq<Page<D>>, role: seq<Role>, d: nat,
                                        lo: nat, a: nat, hi: nat)
    requires lo <= a < hi <= NPAGES && Short(mem, role, d, a) && Counted(m, r, mem, role, d, Spread(lo, a), a - lo)
    ensures NFree(r) < GrowNeeds(m[d], lo, hi)
  {
    hide Spread, Tables, NFree;
    var t, s, all := Tables(m[d]), Spread(lo, a), Spread(lo, hi);
    SpreadMono(lo, a + 1, hi);
    SpreadNext(lo, a);
    NewTables(t, s);
    if a / NENT in t + s { SubsetCard(s - t, all - t); } else { TooFew(s - t, a / NENT, all - t); }
  }

  lemma {:induction false} NewTables(t: set<nat>, s: set<nat>)
    ensures |t + s| == |t| + |s - t|
  {
    assert t + s == t + (s - t);
  }

  lemma {:induction false} EnoughGrow<D>(m: seq<Page<D>>, r: seq<Role>, mem: seq<Page<D>>, role: seq<Role>, d: nat,
                                         lo: nat, hi: nat)
    requires lo <= hi && Counted(m, r, mem, role, d, Spread(lo, hi), hi - lo)
    ensures NFree(r) >= GrowNeeds(m[d], lo, hi)
  {
    hide Spread, Tables, NFree;
    NewTables(Tables(m[d]), Spread(lo, hi));
  }

  /** Pages v to below v + n of d, absent before, map to consecutive pages; the others are as before. */
  ghost predicate RangeMapped<D>(m: seq<Page<D>>, r: seq<Role>, mem: seq<Page<D>>, role: seq<Role>, d: nat, v: nat,
                                 n: nat, pa: nat, perm: int)
    requires Owned(m, r) && d < |r| && r[d] == Dir && Owned(mem, role) && d < |role| && role[d] == Dir
  {
    && (forall w :: v <= w < v + n && w < NPAGES ==> Pte(m, r, d, w) == Absent)
    && (forall w :: 0 <= w < NPAGES ==>
          Pte(mem, role, d, w) == if v <= w < v + n then Present(pa + w - v, perm) else Pte(m, r, d, w))
  }

  lemma {:induction false} RangeSelf<D>(m: seq<Page<D>>, r: seq<Role>, d: nat, v: nat, pa: nat, perm: int)
    requires Owned(m, r) && d < |r| && r[d] == Dir
    ensures RangeMapped(m, r, m, r, d, v, 0, pa, perm) && UsersKept(m, r, m, r)
    ensures forall x :: 0 <= x ==> TablesAdded(r, r, d, x) && Beside(m, r, m, r, d, x)
  {
    OwnedSize(m, r);
    hide Owned;
  }

  lemma {:induction false} RangeNext<D>(m: seq<Page<D>>, r: seq<Role>, m1: seq<Page<D>>, r1: seq<Role>,
                                        mem: seq<Page<D>>, role: seq<Role>, d: nat, v: nat, n: nat, pa: nat, perm: int,
                                        mapped: bool)
    requires Owned(m, r) && d < |r| && r[d] == Dir && Owned(m1, r1) && d < |r1| && r1[d] == Dir
    requires Owned(mem, role) && d < |role| && role[d] == Dir && RangeMapped(m, r, m1, r1, d, v, n, pa, perm)
    requires v + n < NPAGES && (mapped ==> Pte(m1, r1, d, v + n) == Absent)
    requires forall w :: 0 <= w < NPAGES ==>
      Pte(mem, role, d, w) == if w == v + n && mapped then Present(pa + n, perm) else Pte(m1, r1, d, w)
    ensures RangeMapped(m, r, mem, role, d, v, if mapped then n + 1 else n, pa, perm)
    ensures Pte(m1, r1, d, v + n) == Pte(m, r, d, v + n)
  {
    hide Owned;
  }

  lemma {:induction false} AddedTrans<D>(m: seq<Page<D>>, r: seq<Role>, m1: seq<Page<D>>, r1: seq<Role>,
                                         mem: seq<Page<D>>, role: seq<Role>, d: nat, x: nat)
    requires TablesAdded(r, r1, d, x) && TablesAdded(r1, role, d, x)
    requires UsersKept(m, r, m1, r1) && UsersKept(m1, r1, mem, role)
    ensures TablesAdded(r, role, d, x) && UsersKept(m, r, mem, role)
  {
  }

  /** Page v of d is a zeroed writable user page that was free before. */
  ghost predicate Zeroed<D>(r: seq<Role>, mem: seq<Page<D>>, role: seq<Role>, d: nat, v: nat, zero: D)
    requires Owned(mem, role) && d < |role| && role[d] == Dir && v < NPAGES
  {
    var e := Pte(mem, role, d, v);
    e.Present? && e.flags == PTE_W + PTE_U && e.page < |r| == |mem| && r[e.page] == Free && mem[e.page] == Data(zero)
  }

  /** Roles change only where a free page has become a table of d or a user page from lo to below hi. */
  ghost predicate Extended(role: seq<Role>, role': seq<Role>, d: nat, lo: nat, hi: nat) {
    && |role| == |role'|
    && forall f :: 0 <= f < |role| ==>
         role'[f] == role[f] ||
         (role[f] == Free && ((role'[f].Tab? && role'[f].d == d) || UserWithin(role'[f], d, lo, hi)))
  }

  lemma {:induction false} ExtendedOne(r: seq<Role>, r1: seq<Role>, role: seq<Role>, d: nat, lo: nat, a: nat)
    requires Extended(r, r1, d, lo, a) && UserAdded(r1, role, d, a) && lo <= a
    ensures Extended(r, role, d, lo, a + 1)
  {
    assert VirtualPage(User(d, a / NENT, a % NENT)) == a;
  }

  /** Freeing the pages from lo to below hi undoes the extension but for the tables. */
  lemma {:induction false} Undone<D>(m: seq<Page<D>>, r: seq<Role>, r1: seq<Role>, role: seq<Role>, d: nat, lo: nat,
        a: nat, hi: nat)
    requires Owned(m, r) && d < |r| && r[d] == Dir && Extended(r, r1, d, lo, a + 1) && a < hi <= NPAGES
    requires Freed(r1, role, d, lo, hi)
    requires forall w :: lo <= w < hi ==> Pte(m, r, d, w) == Absent
    ensures TablesAdded(r, role, d, 0) && forall f :: 0 <= f < |r| && r[f].User? ==> role[f] == r[f]
  {
    hide Owned;
    forall f | 0 <= f < |r| && UserWithin(r[f], d, lo, hi) ensures false { RoleMapped(m, r, f); }
  }

  lemma {:induction false} UsersStay<D>(m: seq<Page<D>>, r: seq<Role>, m1: seq<Page<D>>, r1: seq<Role>,
        mem: seq<Page<D>>, role: seq<Role>)
    requires UsersKept(m, r, m1, r1) && |mem| == |role| == |r|
    requires forall f :: 0 <= f < |r| && r[f].User? ==> role[f] == r[f]
    requires forall f :: 0 <= f < |role| && role[f].User? ==> mem[f] == m1[f]
    ensures UsersKept(m, r, mem, role)
  {
  }

  lemma {:induction false} ZeroedKept<D>(r: seq<Role>, m1: seq<Page<D>>, r1: seq<Role>, mem: seq<Page<D>>,
                                         role: seq<Role>, d: nat, lo: nat, a: nat, zero: D)
    requires Owned(m1, r1) && d < |r1| == |r| && r1[d] == Dir && Owned(mem, role) && |role| == |r1| && role[d] == Dir
    requires lo <= a < KPAGE && UsersKept(m1, r1, mem, role) && Extended(r, r1, d, lo, a)
    requires forall w :: lo <= w < a ==> Zeroed(r, m1, r1, d, w, zero) && Pte(mem, role, d, w) == Pte(m1, r1, d, w)
    requires Zeroed(r1, mem, role, d, a, zero)
    ensures forall w :: lo <= w < a + 1 ==> Zeroed(r, mem, role, d, w, zero)
  {
    hide Owned;
    forall w | lo <= w < a ensures Zeroed(r, mem, role, d, w, zero) {
      assert Zeroed(r, m1, r1, d, w, zero);
      PteUser(m1, r1, d, w);
    }
  }

  /** Roles change only where a free page has become a table of d or the user page at i. */
  ghost predicate UserAdded(role: seq<Role>, role': seq<Role>, d: nat, i: nat) {
    && |role| == |role'|
    && forall f :: 0 <= f < |role| ==>
         role'[f] == role[f] ||
         (role[f] == Free && ((role'[f].Tab? && role'[f].d == d) || role'[f] == User(d, i / NENT, i % NENT)))
  }

  /** Roles change only where a free page has become part of the address space of d. */
  ghost predicate Built(role: seq<Role>, role': seq<Role>, d: nat) {
    && |role| == |role'|
    && forall f :: 0 <= f < |role| ==> role'[f] == role[f] || (role[f] == Free && (f == d || BelongsTo(role'[f], d)))
  }

  /** Tearing down what was built gives every page back. */
  lemma {:induction false} Restored<D>(mem: seq<Page<D>>, role: seq<Role>, built: seq<Role>, role': seq<Role>, d: nat)
    requires Owned(mem, role) && d < |role| && role[d] == Free && Built(role, built, d) && TornDown(built, role', d)
    ensures role' == role
  {
    forall f | 0 <= f < |role| ensures role'[f] == role[f] {
      NoneOf(mem, role, d, f);
    }
  }

  lemma {:induction false} NoneOf<D>(mem: seq<Page<D>>, role: seq<Role>, d: nat, f: nat)
    requires Owned(mem, role) && d < |role| && role[d] == Free && f < |role|
    ensures !BelongsTo(role[f], d)
  {
    assert Backed(mem, role, f);
  }

  lemma {:induction false} BesideAll<D>(mem: seq<Page<D>>, role: seq<Role>, mem': seq<Page<D>>, role': seq<Role>,
        d: nat)
    requires Owned(mem, role) && d < |role| && role[d] == Free && Beside(mem, role, mem', role', d, 0)
    ensures Beside(mem, role, mem', role', 0, 0)
  {
    forall f | 0 <= f < |role| ensures !BelongsTo(role[f], d) { NoneOf(mem, role, d, f); }
  }

  /** Every page of the address space of d is free, and no other page has changed hands. */
  ghost predicate TornDown(role: seq<Role>, role': seq<Role>, d: nat) {
    && |role| == |role'|
    && forall f :: 0 <= f < |role| ==> role'[f] == if f == d || BelongsTo(role[f], d) then Free else role[f]
  }

  /** User pages stay mapped where they were, with their contents. */
  ghost predicate UsersKept<D>(mem: seq<Page<D>>, role: seq<Role>, mem': seq<Page<D>>, role': seq<Role>) {
    && |mem| == |role| == |mem'| == |role'|
    && forall f :: 0 <= f < |role| && role[f].User? ==> role'[f] == role[f] && mem'[f] == mem[f]
  }

  /** Roles change only where a free page has become a table of d, and at x. */
  ghost predicate TablesAdded(role: seq<Role>, role': seq<Role>, d: nat, x: nat) {
    && |role| == |role'|
    && forall f :: 0 <= f < |role| && (f != x || x == 0) ==>
          role'[f] == role[f] || (role[f] == Free && role'[f].Tab? && role'[f].d == d)
  }

  lemma {:induction false} TableEntry<D>(mem: seq<Page<D>>, role: seq<Role>, d: nat, t: nat, v: nat)
    requires Owned(mem, role) && d < |role| && role[d] == Dir && v < NPAGES && t < |role| && role[t] == Tab(d, v / NENT)
    ensures IsTable(mem, t) && Pte(mem, role, d, v) == Ent(mem, t, v % NENT)
  {
    assert Backed(mem, role, t);
  }

  /** Pages outside the directory and its tables do not matter to its entries. */
  lemma {:induction false} PteFrame<D>(mem: seq<Page<D>>, role: seq<Role>, mem': seq<Page<D>>, role': seq<Role>,
        d: nat, v: nat)
    requires Owned(mem, role) && Owned(mem', role') && |role| == |role'| && d < |role| &&
          role[d] == role'[d] == Dir && v < NPAGES
    requires forall f :: 0 <= f < |role| && (f == d || (role[f].Tab? && role[f].d == d)) ==> mem'[f] == mem[f]
    ensures Pte(mem', role', d, v) == Pte(mem, role, d, v)
  {
    Targets(mem, role, d);
  }

  /** The virtual page a user page is mapped at. */
  function VirtualPage(r: Role): nat
    requires r.User?
  {
    r.i * NENT + r.j
  }

  predicate UserWithin(r: Role, d: nat, lo: nat, hi: nat) { r.User? && r.d == d && lo <= VirtualPage(r) < hi }

  /** Exactly the user pages that d had between lo and hi have gone to the free list. */
  ghost predicate Freed(role: seq<Role>, role': seq<Role>, d: nat, lo: nat, hi: nat) {
    && |role| == |role'|
    && forall f :: 0 <= f < |role| ==> role'[f] == if UserWithin(role[f], d, lo, hi) then Free else role[f]
  }

  lemma {:induction false} PagesMono(newsz: nat, oldsz: nat)
    requires oldsz <= KERNBASE
    ensures PagesUp(oldsz) <= KPAGE
    ensures newsz >= oldsz ==> PagesUp(newsz) >= PagesUp(oldsz)
  {
  }

  lemma {:induction false} Below(a: nat, sz: nat)
    ensures a * PGSIZE < sz <==> a < PagesUp(sz)
  {
  }

  lemma {:induction false} NextTable(a: nat)
    ensures a < (a / NENT + 1) * NENT
    ensures forall w :: a <= w < (a / NENT + 1) * NENT ==> w / NENT == a / NENT
  {
  }

  /** A user page is mapped where its role says. */
  lemma {:induction false} RoleMapped<D>(mem: seq<Page<D>>, role: seq<Role>, f: nat)
    requires Owned(mem, role) && f < |role| && role[f].User?
    ensures var r := role[f];
            && r.d < |role| && role[r.d] == Dir && VirtualPage(r) < KPAGE
            && VirtualPage(r) / NENT == r.i && VirtualPage(r) % NENT == r.j
            && Pte(mem, role, r.d, VirtualPage(r)).Present? && Pte(mem, role, r.d, VirtualPage(r)).page == f
  {
    assert Backed(mem, role, f);
    var r := role[f];
    assert VirtualPage(r) / NENT == r.i && VirtualPage(r) % NENT == r.j;
  }

  lemma {:induction false} FreedSkip<D>(mem: seq<Page<D>>, role: seq<Role>, r: seq<Role>, d: nat, lo: nat, a: nat,
        b: nat)
    requires Owned(mem, role) && d < |role| && role[d] == Dir && Freed(r, role, d, lo, a) && lo <= a <= b <= NPAGES
    requires forall w :: a <= w < b ==> Pte(mem, role, d, w) == Absent
    ensures Freed(r, role, d, lo, b)
  {
    hide Owned;
    forall f | 0 <= f < |role| && UserWithin(r[f], d, a, b) ensures false {
      assert role[f] == r[f];
      RoleMapped(mem, role, f);
    }
  }

  lemma {:induction false} FreedOne<D>(mem: seq<Page<D>>, role: seq<Role>, r: seq<Role>, d: nat, lo: nat, a: nat)
    requires Owned(mem, role) && d < |role| && role[d] == Dir && Freed(r, role, d, lo, a) && lo <= a < KPAGE
    requires Pte(mem, role, d, a).Present? && Pte(mem, role, d, a).page < |role|
    requires role[Pte(mem, role, d, a).page] == User(d, a / NENT, a % NENT)
    ensures Freed(r, role[Pte(mem, role, d, a).page := Free], d, lo, a + 1)
  {
    hide Owned;
    forall f | 0 <= f < |role| && UserWithin(r[f], d, a, a + 1) ensures f == Pte(mem, role, d, a).page {
      assert role[f] == r[f];
      RoleMapped(mem, role, f);
    }
  }

  lemma {:induction false} FreedTrim<D>(m: seq<Page<D>>, r: seq<Role>, role: seq<Role>, d: nat, lo: nat, hi: nat,
        a: nat)
    requires Owned(m, r) && d < |r| && r[d] == Dir && Freed(r, role, d, lo, a) && hi <= a
    requires forall w :: hi <= w < a && w < NPAGES ==> Pte(m, r, d, w) == Absent
    ensures Freed(r, role, d, lo, hi)
  {
    hide Owned;
    forall f | 0 <= f < |role| && UserWithin(r[f], d, hi, a) ensures false {
      RoleMapped(m, r, f);
    }
  }

  /** deallocuvm from KERNBASE down to 0 leaves no user page. */
  lemma {:induction false} AllUsers<D>(mem: seq<Page<D>>, role: seq<Role>, role': seq<Role>, d: nat)
    requires Owned(mem, role) && Freed(role, role', d, PagesUp(0), PagesUp(KERNBASE))
    ensures forall f :: 0 <= f < |role| ==> role'[f] == if role[f].User? && role[f].d == d then Free else role[f]
  {
    hide Owned;
    forall f | 0 <= f < |role| && role[f].User? ensures VirtualPage(role[f]) < KPAGE { RoleMapped(mem, role, f); }
  }

  lemma {:induction false} TableIndices<D>(mem: seq<Page<D>>, role: seq<Role>)
    requires Owned(mem, role)
    ensures role[0] == Other && forall f :: 0 <= f < |role| && role[f].Tab? ==> role[f].i < NENT
  {
    forall f | 0 <= f < |role| && role[f].Tab? ensures role[f].i < NENT { assert Backed(mem, role, f); }
  }

  /** The table that entry i of d names is the only page with that role. */
  lemma {:induction false} TableUnique<D>(mem: seq<Page<D>>, role: seq<Role>, d: nat, i: nat)
    requires Owned(mem, role) && d < |role| && role[d] == Dir && i < NENT
    ensures IsTable(mem, d)
    ensures forall f :: 0 <= f < |role| && role[f] == Tab(d, i) ==> Ent(mem, d, i).Present? && Ent(mem, d, i).page == f
    ensures Ent(mem, d, i).Present? ==> 0 < Ent(mem, d, i).page < |role| && role[Ent(mem, d, i).page] == Tab(d, i)
  {
    Targets(mem, role, d);
    forall f | 0 <= f < |role| && role[f] == Tab(d, i) ensures Ent(mem, d, i).Present? && Ent(mem, d, i).page == f {
      assert Backed(mem, role, f);
    }
  }

  lemma {:induction false} PteUser<D>(mem: seq<Page<D>>, role: seq<Role>, d: nat, v: nat)
    requires Owned(mem, role) && d < |role| && role[d] == Dir && v < KPAGE && Pte(mem, role, d, v).Present?
    ensures var f := Pte(mem, role, d, v).page; 0 < f < |role| && role[f] == User(d, v / NENT, v % NENT) && mem[f].Data?
  {
    Targets(mem, role, d);
    var t := Ent(mem, d, v / NENT).page;
    Targets(mem, role, t);
    assert Backed(mem, role, Ent(mem, t, v % NENT).page);
  }

  /** Page v of d is a copy, on a page that was free, of page v of p as it was. */
  ghost predicate Copied<D>(m: seq<Page<D>>, r: seq<Role>, p: nat, mem: seq<Page<D>>, role: seq<Role>, d: nat, v: nat)
    requires Owned(m, r) && p < |r| && r[p] == Dir && Owned(mem, role) && d < |role| && role[d] == Dir && v < NPAGES
  {
    var e, e' := Pte(m, r, p, v), Pte(mem, role, d, v);
    && e.Present? && e'.Present? && e'.flags == e.flags && |m| == |r| == |mem|
    && e.page < |m| && e'.page < |m| && r[e'.page] == Free && mem[e'.page] == m[e.page]
  }

  /** A page that is neither directory nor table does not matter to the entries of d. */
  lemma {:induction false} PtesSame<D>(mem: seq<Page<D>>, role: seq<Role>, mem': seq<Page<D>>, role': seq<Role>,
        d: nat, f: nat)
    requires Owned(mem, role) && Owned(mem', role') && |role| == |role'| == |mem| == |mem'| && d < |role| &&
          role[d] == role'[d] == Dir
    requires f < |role| && role[f] != Dir && !role[f].Tab? && mem' == mem[f := mem'[f]]
    ensures forall v :: 0 <= v < NPAGES ==> Pte(mem', role', d, v) == Pte(mem, role, d, v)
  {
    hide Owned;
    forall v | 0 <= v < NPAGES ensures Pte(mem', role', d, v) == Pte(mem, role, d, v) {
      PteFrame(mem, role, mem', role', d, v);
    }
  }

  /** No page below KERNBASE is the kernel's. */
  lemma {:induction false} UserUnmapped(data: nat)
    requires KPAGE + EXTMEM < data < KPAGE + PHYSTOP
    ensures forall w :: 0 <= w < KPAGE ==> KernelEntry(data, w) == Absent
  {
  }

  /** The parent's address space is as it was, and apart from the child's. */
  lemma {:induction false} StillThere<D>(m: seq<Page<D>>, r: seq<Role>, mem: seq<Page<D>>, role: seq<Role>, p: nat,
        d: nat, v: nat)
    requires Owned(m, r) && Owned(mem, role) && Beside(m, r, mem, role, d, 0) && d < |r| && r[d] == Free
    requires p < |r| && r[p] == Dir && v < NPAGES
    ensures p != d && role[p] == Dir && Pte(mem, role, p, v) == Pte(m, r, p, v)
    ensures v < KPAGE && Pte(m, r, p, v).Present? ==>
      var f := Pte(m, r, p, v).page; f < |r| && mem[f] == m[f] && r[f].User?
  {
    hide Owned;
    BesideAll(m, r, mem, role, d);
    TableIndices(m, r);
    PteFrame(m, r, mem, role, p, v);
    if v < KPAGE && Pte(m, r, p, v).Present? { PteUser(m, r, p, v); }
  }

  lemma {:induction false} CopiesKept<D>(m: seq<Page<D>>, r: seq<Role>, p: nat, m1: seq<Page<D>>, r1: seq<Role>,
                                         mem: seq<Page<D>>, role: seq<Role>, d: nat, i: nat)
    requires Owned(m, r) && p < |r| == |m| && r[p] == Dir && d < |r| && r[d] == Free && i < KPAGE
    requires Owned(m1, r1) && d < |r1| && r1[d] == Dir && Beside(m, r, m1, r1, d, 0) && Built(r, r1, d)
    requires Owned(mem, role) && |role| == |r1| == |r| && role[d] == Dir && UsersKept(m1, r1, mem, role)
    requires forall w :: 0 <= w < i ==> Copied(m, r, p, m1, r1, d, w)
    requires forall w :: 0 <= w < i ==> Pte(mem, role, d, w) == Pte(m1, r1, d, w)
    requires r1[p] == Dir && Copied(m1, r1, p, mem, role, d, i)
    ensures forall w :: 0 <= w < i + 1 ==> Copied(m, r, p, mem, role, d, w)
  {
    hide Owned;
    forall w | 0 <= w < i ensures Copied(m, r, p, mem, role, d, w) {
      assert Copied(m, r, p, m1, r1, d, w);
      PteUser(m1, r1, d, w);
    }
    StillThere(m, r, m1, r1, p, d, i);
  }
}
