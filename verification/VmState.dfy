/** Physical pages and who owns them (kernel/vm.c, kernel/kalloc.c).

    Pages are numbered; page 0 stands for the null pointer.  Besides the contents of every page
    the state records its role, which only the proofs see: on the free list, directory of an
    address space, page table number i of directory d, user page under entry j of table i of d,
    or something else that is in use (kernel memory, a page between kalloc and its first use). */
module VmState {
  import opened Common

  const NENT := 1024              // entries in a directory or a table
  const KDIR := 512               // directory entries below KERNBASE
  const PTE_W := 2
  const PTE_U := 4
  const TABLE_FLAGS := PTE_W + PTE_U

  /** An entry with PTE_P clear, or one with PTE_P set and its other flags. */
  datatype Entry = Absent | Present(page: nat, flags: int)

  /** What a page holds: a link of the free list, directory or table entries, or data. */
  datatype Page<D> = Run(next: nat) | Table(entries: seq<Entry>) | Data(data: D)

  datatype Role = Free | Dir | Tab(d: nat, i: nat) | User(d: nat, i: nat, j: nat) | Other

  const EMPTY: seq<Entry> := seq(NENT, _ => Absent)

  predicate IsTable<D>(mem: seq<Page<D>>, f: nat) {
    f < |mem| && mem[f].Table? && |mem[f].entries| == NENT
  }

  function Ent<D>(mem: seq<Page<D>>, f: nat, i: nat): Entry
    requires IsTable(mem, f) && i < NENT
  {
    mem[f].entries[i]
  }

  function Put<D>(mem: seq<Page<D>>, f: nat, i: nat, e: Entry): (r: seq<Page<D>>)
    requires IsTable(mem, f) && i < NENT
  {
    mem[f := Table(mem[f].entries[i := e])]
  }

  // ---- The free list ----

  predicate Linked<D>(mem: seq<Page<D>>, head: nat, list: seq<nat>)
    decreases |list|
  {
    if list == [] then head == 0
    else head == list[0] && 0 < head < |mem| && mem[head].Run? && Linked(mem, mem[head].next, list[1..])
  }

  ghost predicate FreeList<D>(mem: seq<Page<D>>, role: seq<Role>, head: nat, list: seq<nat>) {
    && Linked(mem, head, list) && Distinct(list)
    && (forall f :: f in list ==> f < |role| && role[f] == Free)
    && (forall f :: 0 <= f < |role| && role[f] == Free ==> f in list)
  }

  lemma {:induction false} LinkedFrame<D>(mem: seq<Page<D>>, mem': seq<Page<D>>, head: nat, list: seq<nat>)
    requires Linked(mem, head, list) && |mem'| == |mem|
    requires forall f :: f in list ==> f < |mem| && mem'[f] == mem[f]
    ensures Linked(mem', head, list)
    decreases |list|
  {
    if list != [] {
      assert head in list;
      forall f | f in list[1..] ensures f in list {}
      LinkedFrame(mem, mem', mem[head].next, list[1..]);
    }
  }

  // ---- Ownership ----

  /** The page does what its role says, and is reachable from where its role says. */
  predicate Backed<D>(mem: seq<Page<D>>, role: seq<Role>, f: nat)
    requires f < |role| == |mem|
  {
    match role[f]
    case Free => mem[f].Run?
    case Dir => IsTable(mem, f)
    case Tab(d, i) =>
      && IsTable(mem, f) && d < |role| && role[d] == Dir && IsTable(mem, d) && i < NENT
      && Ent(mem, d, i) == Present(f, TABLE_FLAGS)
    case User(d, i, j) =>
      && mem[f].Data? && i < KDIR && j < NENT && d < |role| && role[d] == Dir && IsTable(mem, d)
      && Ent(mem, d, i).Present? && var t := Ent(mem, d, i).page;
      && t < |role| && role[t] == Tab(d, i) && IsTable(mem, t)
      && Ent(mem, t, j).Present? && Ent(mem, t, j).page == f
    case Other => true
  }

  /** Every entry of a directory leads to a table of its own. */
  predicate DirEntry<D>(mem: seq<Page<D>>, role: seq<Role>, d: nat, i: nat)
    requires d < |role| == |mem| && IsTable(mem, d) && i < NENT
  {
    Ent(mem, d, i).Present? ==>
      var t := Ent(mem, d, i).page; 0 < t < |role| && role[t] == Tab(d, i) && Ent(mem, d, i).flags == TABLE_FLAGS
  }

  /** Every user entry of a table leads to a user page of its own. */
  predicate TabEntry<D>(mem: seq<Page<D>>, role: seq<Role>, t: nat, j: nat)
    requires t < |role| == |mem| && IsTable(mem, t) && j < NENT && role[t].Tab?
  {
    role[t].i < KDIR && Ent(mem, t, j).Present? ==>
      var f := Ent(mem, t, j).page; 0 < f < |role| && role[f] == User(role[t].d, role[t].i, j)
  }

  ghost predicate Links<D>(mem: seq<Page<D>>, role: seq<Role>, f: nat)
    requires f < |role| == |mem| && Backed(mem, role, f)
  {
    && (role[f] == Dir ==> forall i :: 0 <= i < NENT ==> DirEntry(mem, role, f, i))
    && (role[f].Tab? ==> forall j :: 0 <= j < NENT ==> TabEntry(mem, role, f, j))
  }

  ghost predicate Owned<D>(mem: seq<Page<D>>, role: seq<Role>) {
    && |mem| == |role| > 0 && role[0] == Other
    && (forall f :: 0 <= f < |role| ==> Backed(mem, role, f))
    && (forall f :: 0 <= f < |role| ==> Links(mem, role, f))
  }

  ghost predicate Inv<D>(mem: seq<Page<D>>, role: seq<Role>, head: nat, list: seq<nat>) {
    |mem| == |role| && Owned(mem, role) && FreeList(mem, role, head, list)
  }

  lemma {:induction false} BackedFrame<D>(mem: seq<Page<D>>, role: seq<Role>, mem': seq<Page<D>>, role': seq<Role>,
        f: nat)
    requires |mem| == |role| == |mem'| == |role'| && f < |role| && Backed(mem, role, f)
    requires role'[f] == role[f] && mem'[f] == mem[f]
    requires forall x :: 0 <= x < |role| && (role[x] == Dir || role[x].Tab?) ==>
          role'[x] == role[x] && mem'[x] == mem[x]
    ensures Backed(mem', role', f)
  {
  }

  lemma {:induction false} LinksFrame<D>(mem: seq<Page<D>>, role: seq<Role>, mem': seq<Page<D>>, role': seq<Role>,
        f: nat)
    requires |mem| == |role| == |mem'| == |role'| && f < |role|
    requires Backed(mem, role, f) && Links(mem, role, f) && Backed(mem', role', f)
    requires role'[f] == role[f] && mem'[f] == mem[f]
    requires forall x :: 0 <= x < |role| && (role[x].User? || role[x].Tab?) ==> role'[x] == role[x]
    ensures Links(mem', role', f)
  {
    if role[f] == Dir {
      forall i | 0 <= i < NENT ensures DirEntry(mem', role', f, i) { assert DirEntry(mem, role, f, i); }
    } else if role[f].Tab? {
      forall j | 0 <= j < NENT ensures TabEntry(mem', role', f, j) { assert TabEntry(mem, role, f, j); }
    }
  }

  // ---- Counting pages ----

  ghost function FreePages(role: seq<Role>): set<nat> { set f | 0 <= f < |role| && role[f] == Free }

  ghost function NFree(role: seq<Role>): nat { |FreePages(role)| }

  lemma {:induction false} NoneFree(role: seq<Role>)
    ensures NFree(role) == 0 <==> forall f :: 0 <= f < |role| ==> role[f] != Free
  {
    if NFree(role) == 0 {
      assert FreePages(role) == {};
      forall f | 0 <= f < |role| ensures role[f] != Free { assert f !in FreePages(role); }
    } else {
      var f :| f in FreePages(role);
    }
  }

  /** A page changes hands. */
  lemma {:induction false} Handed(role: seq<Role>, f: nat, r: Role)
    requires f < |role|
    ensures NFree(role[f := r]) + (if role[f] == Free then 1 else 0) == NFree(role) + (if r == Free then 1 else 0)
  {
    hide FreePages;
    var a, b := FreePages(role), FreePages(role[f := r]);
    FreeElsewhere(role, f, r);
    WithOrWithout(a, f);
    WithOrWithout(b, f);
  }

  lemma {:induction false} FreeElsewhere(role: seq<Role>, f: nat, r: Role)
    requires f < |role|
    ensures FreePages(role) - {f} == FreePages(role[f := r]) - {f}
    ensures f in FreePages(role) <==> role[f] == Free
    ensures f in FreePages(role[f := r]) <==> r == Free
  {
  }

  lemma {:induction false} WithOrWithout(a: set<nat>, f: nat)
    ensures |a| == |a - {f}| + if f in a then 1 else 0
  {
    if f in a { assert a == a - {f} + {f}; } else { assert a == a - {f}; }
  }

  /** The tables that a directory has. */
  ghost function Tables<D>(dir: Page<D>): set<nat> {
    if dir.Table? && |dir.entries| == NENT then set i | 0 <= i < NENT && dir.entries[i].Present? else {}
  }

  /** Directory d has the tables `more` besides; each of those it did not have, and n pages more,
      have left the free list. */
  ghost predicate Counted<D>(m: seq<Page<D>>, r: seq<Role>, mem: seq<Page<D>>, role: seq<Role>, d: nat,
                             more: set<nat>, n: nat) {
    && d < |m| && d < |mem| && Tables(mem[d]) == Tables(m[d]) + more
    && NFree(role) + |Tables(mem[d])| + n == NFree(r) + |Tables(m[d])|
  }

  lemma {:induction false} CountedSelf<D>(m: seq<Page<D>>, r: seq<Role>, d: nat)
    requires d < |m|
    ensures Counted(m, r, m, r, d, {}, 0)
  {
  }

  lemma {:induction false} CountedTrans<D>(m: seq<Page<D>>, r: seq<Role>, m1: seq<Page<D>>, r1: seq<Role>,
                                           mem: seq<Page<D>>, role: seq<Role>, d: nat, a: set<nat>, b: set<nat>,
                                           i: nat, j: nat)
    requires Counted(m, r, m1, r1, d, a, i) && Counted(m1, r1, mem, role, d, b, j)
    ensures Counted(m, r, mem, role, d, a + b, i + j) && a + {} == a
  {
  }

  /** The tables that virtual pages lo to below hi need. */
  function Spread(lo: nat, hi: nat): set<nat> { set i | lo / NENT <= i < NENT && lo < hi && i * NENT < hi }

  lemma {:induction false} SpreadNext(lo: nat, hi: nat)
    requires lo <= hi < NPAGES
    ensures Spread(lo, hi + 1) == Spread(lo, hi) + {hi / NENT} && Spread(lo, lo) == {}
  {
  }

  lemma {:induction false} TablesPut<D>(mem: seq<Page<D>>, d: nat, i: nat, e: Entry)
    requires IsTable(mem, d) && i < NENT && e.Present?
    ensures Tables(Put(mem, d, i, e)[d]) == Tables(mem[d]) + {i}
    ensures Ent(mem, d, i).Present? <==> i in Tables(mem[d])
  {
  }

  /** Consecutive tables. */
  lemma {:induction false} CountRange(a: nat, b: nat, s: set<nat>)
    requires a <= b && forall i :: i in s <==> a <= i < b
    ensures |s| == b - a
    decreases b
  {
    if a == b {
      assert s == {};
    } else {
      CountRange(a, b - 1, s - {b - 1});
    }
  }

  // ---- kalloc and kfree ----

  /** A page that nothing refers to may change hands and contents. */
  lemma {:induction false} OtherOwned<D>(mem: seq<Page<D>>, role: seq<Role>, f: nat, page: Page<D>, r: Role)
    requires Owned(mem, role) && f < |role| && (role[f] == Free || role[f] == Other)
    requires r == Other || (r == Free && f != 0 && page.Run?)
    ensures Owned(mem[f := page], role[f := r])
  {
    hide Backed, Links;
    var mem', role' := mem[f := page], role[f := r];
    forall k | 0 <= k < |role| ensures Backed(mem', role', k) {
      if k != f { BackedFrame(mem, role, mem', role', k); } else { Idle(mem', role', f); }
    }
    forall k | 0 <= k < |role| ensures Links(mem', role', k) {
      if k != f { LinksFrame(mem, role, mem', role', k); } else { Idle(mem', role', f); }
    }
  }

  lemma {:induction false} Idle<D>(mem: seq<Page<D>>, role: seq<Role>, f: nat)
    requires f < |role| == |mem| && (role[f] == Other || (role[f] == Free && mem[f].Run?))
    ensures Backed(mem, role, f) && Links(mem, role, f)
  {
  }

  lemma {:induction false} AllocKeeps<D>(mem: seq<Page<D>>, role: seq<Role>, head: nat, list: seq<nat>)
    requires Inv(mem, role, head, list)
    ensures head == 0 <==> list == []
    ensures head != 0 ==>
      && 0 < head < |mem| && mem[head].Run? && role[head] == Free
      && Inv(mem, role[head := Other], mem[head].next, list[1..])
  {
    hide Owned;
    if head != 0 {
      assert head in list;
      assert mem[head := mem[head]] == mem;
      OwnedSize(mem, role);
      OtherOwned(mem, role, head, mem[head], Other);
      assert forall k :: 1 <= k < |list| ==> list[k] != list[0];
      forall f | f in list && f != head ensures f in list[1..] {
        var k :| 0 <= k < |list| && list[k] == f;
        assert list[1..][k - 1] == f;
      }
      forall f | f in list[1..] ensures f in list && f != head {
        var k :| 0 <= k < |list| - 1 && list[1..][k] == f;
        assert list[k + 1] == f;
      }
    }
  }

  lemma {:induction false} OwnedSize<D>(mem: seq<Page<D>>, role: seq<Role>)
    requires Owned(mem, role)
    ensures |mem| == |role| > 0 && role[0] == Other
  {
  }

  lemma {:induction false} FreeKeeps<D>(mem: seq<Page<D>>, role: seq<Role>, head: nat, list: seq<nat>, f: nat)
    requires Inv(mem, role, head, list) && 0 < f < |role| && role[f] == Other
    ensures Inv(mem[f := Run(head)], role[f := Free], f, [f] + list)
  {
    hide Owned;
    OwnedSize(mem, role);
    OtherOwned(mem, role, f, Run(head), Free);
    LinkedFrame(mem, mem[f := Run(head)], head, list);
    assert ([f] + list)[1..] == list;
  }

  /** A page in nobody's hands may be filled with anything. */
  lemma {:induction false} FillKeeps<D>(mem: seq<Page<D>>, role: seq<Role>, head: nat, list: seq<nat>, f: nat,
        page: Page<D>)
    requires Inv(mem, role, head, list) && f < |role| && role[f] == Other
    ensures Inv(mem[f := page], role, head, list)
  {
    hide Owned;
    OwnedSize(mem, role);
    OtherOwned(mem, role, f, page, Other);
    assert role[f := Other] == role;
    LinkedFrame(mem, mem[f := page], head, list);
  }

  // ---- Changing one entry ----

  /** mem' is mem but for page f, and but for entry i of table x. */
  ghost predicate EntryChange<D>(mem: seq<Page<D>>, mem': seq<Page<D>>, x: nat, i: nat) {
    && |mem'| == |mem| && IsTable(mem, x) && IsTable(mem', x) && i < NENT
    && (forall k :: 0 <= k < |mem| && k != x ==> mem'[k] == mem[k])
    && (forall j :: 0 <= j < NENT && j != i ==> Ent(mem', x, j) == Ent(mem, x, j))
  }

  lemma {:induction false} PutChanges<D>(mem: seq<Page<D>>, x: nat, i: nat, e: Entry)
    requires IsTable(mem, x) && i < NENT
    ensures EntryChange(mem, Put(mem, x, i, e), x, i) && Ent(Put(mem, x, i, e), x, i) == e
  {
  }

  /** Page k is reached through entry i of table x. */
  predicate Through<D>(mem: seq<Page<D>>, role: seq<Role>, k: nat, x: nat, i: nat)
    requires k < |role| == |mem| && Backed(mem, role, k)
  {
    match role[k]
    case Tab(d, n) => d == x && n == i
    case User(d, n, j) => (d == x && n == i) || (Ent(mem, d, n).page == x && j == i)
    case _ => false
  }

  lemma {:induction false} BackedPast<D>(mem: seq<Page<D>>, role: seq<Role>, mem': seq<Page<D>>, role': seq<Role>,
                                         x: nat, i: nat, k: nat)
    requires |mem| == |role| == |role'| && EntryChange(mem, mem', x, i) && k < |role|
    requires Backed(mem, role, k) && role'[k] == role[k] && !Through(mem, role, k, x, i)
    requires forall y :: 0 <= y < |role| && (role[y] == Dir || role[y].Tab?) ==> role'[y] == role[y]
    requires role[x] == Dir || role[x].Tab?
    ensures Backed(mem', role', k)
  {
  }

  lemma {:induction false} LinksPast<D>(mem: seq<Page<D>>, role: seq<Role>, mem': seq<Page<D>>, role': seq<Role>,
                                        x: nat, i: nat, k: nat)
    requires |mem| == |role| == |role'| && EntryChange(mem, mem', x, i) && k < |role|
    requires Backed(mem, role, k) && Links(mem, role, k) && Backed(mem', role', k) && role'[k] == role[k]
    requires forall n :: 0 <= n < NENT && (k, n) != (x, i) && role[k] == Dir && Ent(mem, k, n).Present? ==>
               var t := Ent(mem, k, n).page; t < |role| && role'[t] == role[t]
    requires forall n :: 0 <= n < NENT && (k, n) != (x, i) && role[k].Tab? && role[k].i < KDIR ==>
               Ent(mem, k, n).Present? ==>
               var f := Ent(mem, k, n).page; f < |role| && role'[f] == role[f]
    requires k == x && role[x] == Dir ==> DirEntry(mem', role', x, i)
    requires k == x && role[x].Tab? ==> TabEntry(mem', role', x, i)
    ensures Links(mem', role', k)
  {
    if role[k] == Dir {
      forall n | 0 <= n < NENT ensures DirEntry(mem', role', k, n) {
        assert DirEntry(mem, role, k, n);
        if (k, n) != (x, i) { assert Ent(mem', k, n) == Ent(mem, k, n); }
      }
    } else if role[k].Tab? {
      forall n | 0 <= n < NENT ensures TabEntry(mem', role', k, n) {
        assert TabEntry(mem, role, k, n);
        if (k, n) != (x, i) { assert Ent(mem', k, n) == Ent(mem, k, n); }
      }
    }
  }

  /** The free list does not care about pages that are not on it. */
  lemma {:induction false} ListPast<D>(mem: seq<Page<D>>, role: seq<Role>, mem': seq<Page<D>>, role': seq<Role>,
                                       head: nat, list: seq<nat>)
    requires FreeList(mem, role, head, list) && |mem| == |role| == |mem'| == |role'|
    requires forall f :: 0 <= f < |role| ==> (role[f] == Free <==> role'[f] == Free)
    requires forall f :: 0 <= f < |role| && role[f] == Free ==> mem'[f] == mem[f]
    ensures FreeList(mem', role', head, list)
  {
    LinkedFrame(mem, mem', head, list);
  }

  /** A zeroed page becomes table i of directory d, which had none. */
  lemma {:induction false} TableKeeps<D>(mem: seq<Page<D>>, role: seq<Role>, head: nat, list: seq<nat>, d: nat,
        i: nat, f: nat)
    requires Inv(mem, role, head, list) && d < |role| && role[d] == Dir && i < NENT && IsTable(mem, d)
    requires Ent(mem, d, i) == Absent && 0 < f < |role| && role[f] == Other && mem[f] == Table(EMPTY)
    ensures Inv(Put(mem, d, i, Present(f, TABLE_FLAGS)), role[f := Tab(d, i)], head, list)
  {
    var mem', role' := Put(mem, d, i, Present(f, TABLE_FLAGS)), role[f := Tab(d, i)];
    hide Backed, Links, Put, Linked;
    PutChanges(mem, d, i, Present(f, TABLE_FLAGS));
    forall k | 0 <= k < |role| ensures Backed(mem', role', k) {
      if k != f {
        NotThroughAbsent(mem, role, d, i, k);
        BackedPast(mem, role, mem', role', d, i, k);
      } else {
        FreshTable(mem', role', f);
      }
    }
    forall k | 0 <= k < |role| ensures Links(mem', role', k) {
      if k != f {
        Targets(mem, role, k);
        LinksPast(mem, role, mem', role', d, i, k);
      } else {
        FreshTable(mem', role', f);
      }
    }
    ListPast(mem, role, mem', role', head, list);
  }

  lemma {:induction false} FreshTable<D>(mem: seq<Page<D>>, role: seq<Role>, f: nat)
    requires |mem| == |role| && f < |role| && mem[f] == Table(EMPTY)
    requires role[f] == Dir ||
             (role[f].Tab? && role[f].d < |role| && role[role[f].d] == Dir && IsTable(mem, role[f].d) &&
                   role[f].i < NENT
              && Ent(mem, role[f].d, role[f].i) == Present(f, TABLE_FLAGS))
    ensures Backed(mem, role, f) && Links(mem, role, f)
  {
  }

  /** No page is reached through an absent entry. */
  lemma {:induction false} NotThroughAbsent<D>(mem: seq<Page<D>>, role: seq<Role>, x: nat, i: nat, k: nat)
    requires Owned(mem, role) && k < |role| && IsTable(mem, x) && i < NENT && Ent(mem, x, i) == Absent
    ensures !Through(mem, role, k, x, i)
  {
    assert Backed(mem, role, k);
  }

  /** Where the entries of a directory or a table lead. */
  lemma {:induction false} Targets<D>(mem: seq<Page<D>>, role: seq<Role>, k: nat)
    requires Owned(mem, role) && k < |role|
    ensures role[k] == Dir ==> IsTable(mem, k) && forall n :: 0 <= n < NENT && Ent(mem, k, n).Present? ==>
              0 < Ent(mem, k, n).page < |role| && role[Ent(mem, k, n).page] == Tab(k, n)
    ensures role[k].Tab? ==> IsTable(mem, k)
    ensures role[k].Tab? && role[k].i < KDIR ==>
              forall n :: 0 <= n < NENT && Ent(mem, k, n).Present? ==>
                0 < Ent(mem, k, n).page < |role| && role[Ent(mem, k, n).page] == User(role[k].d, role[k].i, n)
  {
    assert Backed(mem, role, k) && Links(mem, role, k);
    if role[k] == Dir {
      forall n | 0 <= n < NENT && Ent(mem, k, n).Present?
        ensures 0 < Ent(mem, k, n).page < |role| && role[Ent(mem, k, n).page] == Tab(k, n) {
        assert DirEntry(mem, role, k, n);
      }
    } else if role[k].Tab? && role[k].i < KDIR {
      forall n | 0 <= n < NENT && Ent(mem, k, n).Present?
        ensures 0 < Ent(mem, k, n).page < |role| && role[Ent(mem, k, n).page] == User(role[k].d, role[k].i, n) {
        assert TabEntry(mem, role, k, n);
      }
    }
  }

  /** A zeroed page becomes a directory. */
  lemma {:induction false} DirKeeps<D>(mem: seq<Page<D>>, role: seq<Role>, head: nat, list: seq<nat>, f: nat)
    requires Inv(mem, role, head, list) && 0 < f < |role| && role[f] == Other && mem[f] == Table(EMPTY)
    ensures Inv(mem, role[f := Dir], head, list)
  {
    hide Backed, Links, Linked;
    var role' := role[f := Dir];
    forall k | 0 <= k < |role| ensures Backed(mem, role', k) {
      if k != f { BackedFrame(mem, role, mem, role', k); } else { FreshTable(mem, role', f); }
    }
    forall k | 0 <= k < |role| ensures Links(mem, role', k) {
      if k != f { LinksFrame(mem, role, mem, role', k); } else { FreshTable(mem, role', f); }
    }
    ListPast(mem, role, mem, role', head, list);
  }

  /** A data page goes under an absent user entry. */
  lemma {:induction false} UserKeeps<D>(mem: seq<Page<D>>, role: seq<Role>, head: nat, list: seq<nat>,
                                        t: nat, j: nat, f: nat, flags: int)
    requires Inv(mem, role, head, list) && t < |role| && role[t].Tab? && role[t].i < KDIR && j < NENT && IsTable(mem, t)
    requires Ent(mem, t, j) == Absent && 0 < f < |role| && role[f] == Other && mem[f].Data?
    ensures Inv(Put(mem, t, j, Present(f, flags)), role[f := User(role[t].d, role[t].i, j)], head, list)
  {
    var mem', role' := Put(mem, t, j, Present(f, flags)), role[f := User(role[t].d, role[t].i, j)];
    hide Backed, Links, Put, Linked;
    PutChanges(mem, t, j, Present(f, flags));
    forall k | 0 <= k < |role| ensures Backed(mem', role', k) {
      if k != f {
        NotThroughAbsent(mem, role, t, j, k);
        BackedPast(mem, role, mem', role', t, j, k);
      } else {
        MappedUser(mem, role, mem', role', t, j, f);
      }
    }
    forall k | 0 <= k < |role| ensures Links(mem', role', k) {
      Targets(mem, role, k);
      if k != f { LinksPast(mem, role, mem', role', t, j, k); } else { MappedUser(mem, role, mem', role', t, j, f); }
    }
    ListPast(mem, role, mem', role', head, list);
  }

  lemma {:induction false} MappedUser<D>(mem: seq<Page<D>>, role: seq<Role>, mem': seq<Page<D>>, role': seq<Role>,
                                         t: nat, j: nat, f: nat)
    requires Owned(mem, role) && EntryChange(mem, mem', t, j) && |mem| == |role'| && f < |role|
    requires t < |role| && role[t].Tab? && role[t].i < KDIR && f != t && role[f] == Other && mem'[f].Data?
    requires Ent(mem', t, j).Present? && Ent(mem', t, j).page == f
    requires role' == role[f := User(role[t].d, role[t].i, j)]
    ensures Backed(mem', role', f) && Links(mem', role', f)
  {
    assert Backed(mem, role, t);
  }

  /** An entry above KERNBASE may be set to anything. */
  lemma {:induction false} KernelKeeps<D>(mem: seq<Page<D>>, role: seq<Role>, head: nat, list: seq<nat>, t: nat,
        j: nat, e: Entry)
    requires Inv(mem, role, head, list) && t < |role| && role[t].Tab? && role[t].i >= KDIR && j < NENT &&
          IsTable(mem, t)
    ensures Inv(Put(mem, t, j, e), role, head, list)
  {
    var mem' := Put(mem, t, j, e);
    hide Backed, Links, Put, Linked;
    PutChanges(mem, t, j, e);
    forall k | 0 <= k < |role| ensures Backed(mem', role, k) {
      NotThroughKernel(mem, role, t, j, k);
      BackedPast(mem, role, mem', role, t, j, k);
    }
    forall k | 0 <= k < |role| ensures Links(mem', role, k) {
      Targets(mem, role, k);
      LinksPast(mem, role, mem', role, t, j, k);
    }
    ListPast(mem, role, mem', role, head, list);
  }

  lemma {:induction false} NotThroughKernel<D>(mem: seq<Page<D>>, role: seq<Role>, t: nat, j: nat, k: nat)
    requires Owned(mem, role) && k < |role| && t < |role| && role[t].Tab? && role[t].i >= KDIR
    ensures !Through(mem, role, k, t, j)
  {
    assert Backed(mem, role, k);
  }

  /** A user page is taken out of its table. */
  lemma {:induction false} UnmapKeeps<D>(mem: seq<Page<D>>, role: seq<Role>, head: nat, list: seq<nat>, t: nat, j: nat)
    requires Inv(mem, role, head, list) && t < |role| && role[t].Tab? && role[t].i < KDIR && j < NENT && IsTable(mem, t)
    requires Ent(mem, t, j).Present?
    ensures var f := Ent(mem, t, j).page;
            && 0 < f < |role| && role[f] == User(role[t].d, role[t].i, j) && mem[f].Data?
            && Inv(Put(mem, t, j, Absent), role[f := Other], head, list)
  {
    hide Links, Put, Linked;
    Targets(mem, role, t);
    var f := Ent(mem, t, j).page;
    assert Backed(mem, role, f);
    var mem', role' := Put(mem, t, j, Absent), role[f := Other];
    PutChanges(mem, t, j, Absent);
    forall k | 0 <= k < |role| ensures Backed(mem', role', k) {
      if k != f {
        OnlyThrough(mem, role, t, j, f, k);
        BackedPast(mem, role, mem', role', t, j, k);
      }
    }
    forall k | 0 <= k < |role| ensures Links(mem', role', k) {
      Targets(mem, role, k);
      if role[k] == role[t] { OneTable(mem, role, k, t); }
      if k != f { LinksPast(mem, role, mem', role', t, j, k); } else { Idle(mem', role', f); }
    }
    ListPast(mem, role, mem', role', head, list);
  }

  /** A directory entry has one table. */
  lemma {:induction false} OneTable<D>(mem: seq<Page<D>>, role: seq<Role>, k: nat, t: nat)
    requires Owned(mem, role) && k < |role| && t < |role| && role[k] == role[t] && role[t].Tab?
    ensures k == t
  {
    assert Backed(mem, role, k) && Backed(mem, role, t);
  }

  lemma {:induction false} OnlyThrough<D>(mem: seq<Page<D>>, role: seq<Role>, t: nat, j: nat, f: nat, k: nat)
    requires Owned(mem, role) && k < |role| && t < |role| && role[t].Tab? && j < NENT && k != f
    requires IsTable(mem, t) && Ent(mem, t, j).Present? && Ent(mem, t, j).page == f
    ensures !Through(mem, role, k, t, j)
  {
    assert Backed(mem, role, k);
  }

  // ---- Teardown ----

  predicate BelongsTo(r: Role, d: nat) { (r.Tab? && r.d == d) || (r.User? && r.d == d) }

  /** Roles once directory d and its tables are given up, all user pages having gone before. */
  function Given(role: seq<Role>, d: nat): (r: seq<Role>)
    ensures |r| == |role|
    ensures forall f :: 0 <= f < |role| ==> r[f] == if f == d || BelongsTo(role[f], d) then Other else role[f]
  {
    seq(|role|, f requires 0 <= f < |role| => if f == d || BelongsTo(role[f], d) then Other else role[f])
  }

  lemma {:induction false} GivenKeeps<D>(mem: seq<Page<D>>, role: seq<Role>, head: nat, list: seq<nat>, d: nat)
    requires Inv(mem, role, head, list) && d < |role| && role[d] == Dir
    ensures Inv(mem, Given(role, d), head, list)
  {
    hide Linked, Given, Links;
    var role' := Given(role, d);
    forall k | 0 <= k < |role| ensures Backed(mem, role', k) {
      assert Backed(mem, role, k);
    }
    forall k | 0 <= k < |role| ensures Links(mem, role', k) {
      GivenLinks(mem, role, role', d, k);
    }
    ListPast(mem, role, mem, role', head, list);
  }

  lemma {:induction false} GivenLinks<D>(mem: seq<Page<D>>, role: seq<Role>, role': seq<Role>, d: nat, k: nat)
    requires Owned(mem, role) && d < |role| && role[d] == Dir
    requires role' == Given(role, d) && k < |role| && Backed(mem, role', k)
    ensures Links(mem, role', k)
  {
    hide Given;
    Targets(mem, role, k);
    assert Backed(mem, role, k) && Links(mem, role, k);
    if role'[k] == Dir {
      forall i | 0 <= i < NENT ensures DirEntry(mem, role', k, i) { assert DirEntry(mem, role, k, i); }
    } else if role'[k].Tab? {
      forall j | 0 <= j < NENT ensures TabEntry(mem, role', k, j) { assert TabEntry(mem, role, k, j); }
    }
  }

  // ---- Address spaces ----

  const NPAGES := NENT * NENT      // pages of virtual addresses
  const KPAGE := KDIR * NENT       // the first one that belongs to the kernel

  /** The page table entry of page v in the address space of d. */
  ghost function Pte<D>(mem: seq<Page<D>>, role: seq<Role>, d: nat, v: nat): Entry
    requires Owned(mem, role) && d < |role| && role[d] == Dir && v < NPAGES
  {
    Targets(mem, role, d);
    if Ent(mem, d, v / NENT) == Absent then Absent
    else
      var t := Ent(mem, d, v / NENT).page;
      Targets(mem, role, t);
      Ent(mem, t, v % NENT)
  }

  /** Nothing outside the address space of d, the free list and page x has changed. */
  ghost predicate Beside<D>(mem: seq<Page<D>>, role: seq<Role>, mem': seq<Page<D>>, role': seq<Role>, d: nat, x: nat) {
    && |mem| == |role| == |mem'| == |role'|
    && forall f :: 0 < f < |role| && role[f] != Free && f != d && !BelongsTo(role[f], d) && f != x ==>
         role'[f] == role[f] && mem'[f] == mem[f]
  }

  lemma {:induction false} BesideTrans<D>(m: seq<Page<D>>, r: seq<Role>, m': seq<Page<D>>, r': seq<Role>,
                                          m'': seq<Page<D>>, r'': seq<Role>, d: nat, x: nat, y: nat, z: nat)
    requires Beside(m, r, m', r', d, y) && (y == x || y == 0) && Beside(m', r', m'', r'', d, z) && (z == x || z == 0)
    ensures Beside(m, r, m'', r'', d, x)
  {
  }

  lemma {:induction false} Split(v: nat, w: nat)
    requires v / NENT == w / NENT && v % NENT == w % NENT
    ensures v == w
  {
    assert v == (v / NENT) * NENT + v % NENT && w == (w / NENT) * NENT + w % NENT;
  }

  /** Setting one entry of a table changes exactly that page table entry of the address space. */
  lemma {:induction false} PtePut<D>(mem: seq<Page<D>>, role: seq<Role>, mem': seq<Page<D>>, role': seq<Role>, d: nat,
        t: nat, v: nat, w: nat)
    requires Owned(mem, role) && Owned(mem', role') && d < |role| == |role'| && role[d] == role'[d] == Dir
    requires v < NPAGES && w < NPAGES && t < |role| && role[t] == role'[t] == Tab(d, v / NENT)
    requires EntryChange(mem, mem', t, v % NENT)
    ensures Pte(mem', role', d, w) == if w == v then Ent(mem', t, v % NENT) else Pte(mem, role, d, w)
  {
    assert Backed(mem, role, t) && Backed(mem', role', t) && Backed(mem, role, d);
    Targets(mem, role, d);
    Targets(mem', role', d);
    if w != v && w / NENT == v / NENT && w % NENT == v % NENT { Split(v, w); }
    if w / NENT != v / NENT && Ent(mem, d, w / NENT).Present? {
      Targets(mem, role, Ent(mem, d, w / NENT).page);
    }
  }
}
