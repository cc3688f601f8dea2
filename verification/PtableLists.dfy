/** The intrusive scheduling queues of kernel/proc.c: queue_first, queue_last and next_proc.

    Pointers are slot numbers, NULL is -1.  The list lemmas are about plain sequences; class
    Ptable holds the arrays and runs the source's loops, and every method is proved to compute
    the function of the same name in module ProcTable. */
module PtableLists {
  import opened Common
  import opened ProcTable

  /** `f` and `l` are the two ends of a null-terminated list through `next` that visits `q`. */
  ghost predicate IsList(f: int, l: int, next: seq<int>, q: seq<int>) {
    && (forall k :: 0 <= k < |q| ==> 0 <= q[k] < |next|)
    && if q == [] then f == NULL && l == NULL
       else
         && f == q[0] && l == q[|q| - 1] && next[l] == NULL
         && forall k {:trigger next[q[k]]} :: 0 <= k < |q| - 1 ==> next[q[k]] == q[k + 1]
  }

  /** Writing the link of a slot that is not on the list changes nothing. */
  lemma {:induction false} ListFrame(f: int, l: int, next: seq<int>, q: seq<int>, p: int, v: int)
    requires IsList(f, l, next, q) && 0 <= p < |next| && p !in q
    ensures IsList(f, l, next[p := v], q)
  {
  }

  /** enqueue: link p behind the old last element and terminate the list at p. */
  lemma {:induction false} ListAppend(f: int, l: int, next: seq<int>, q: seq<int>, p: int)
    requires IsList(f, l, next, q) && Distinct(q) && 0 <= p < |next| && p !in q
    ensures var linked := if l != NULL then next[l := p] else next;
            IsList(if l != NULL then f else p, p, linked[p := NULL], q + [p])
  {
  }

  /** dequeue: unlink the k-th element. */
  lemma {:induction false} ListRemove(f: int, l: int, next: seq<int>, q: seq<int>, k: nat)
    requires IsList(f, l, next, q) && Distinct(q) && k < |q|
    ensures var prev := if k == 0 then NULL else q[k - 1];
            var linked := if k == 0 then next else next[prev := next[q[k]]];
            && IsList(if k == 0 then next[q[0]] else f, if l == q[k] then prev else l, linked, q[..k] + q[k + 1..])
            && (l == q[k] <==> k == |q| - 1)
            && (f == q[k] <==> k == 0)
            && (forall j :: 0 <= j < |q| ==> 0 <= q[j] < |next|)
  {
    var prev := if k == 0 then NULL else q[k - 1];
    var linked := if k == 0 then next else next[prev := next[q[k]]];
    var r := q[..k] + q[k + 1..];
    forall j | 0 <= j < |r| - 1 ensures linked[r[j]] == r[j + 1] {
      if j + 1 < k {
        assert r[j] == q[j] && r[j] != prev;
      } else if j + 1 == k {
        assert r[j] == prev;
      } else {
        assert r[j] == q[j + 1] && q[j + 1] != prev;
      }
    }
  }

  /** priority_boost: hang a list behind another. */
  lemma {:induction false} ListConcat(f: int, l: int, next: seq<int>, q: seq<int>, f': int, l': int, q': seq<int>)
    requires IsList(f, l, next, q) && IsList(f', l', next, q')
    requires Distinct(q + q') && q != [] && q' != []
    ensures IsList(f, l', next[l := f'], q + q')
  {
    assert forall k :: 0 <= k < |q| ==> (q + q')[k] == q[k];
    assert forall k :: 0 <= k < |q'| ==> (q + q')[|q| + k] == q'[k];
  }

  /** The arrays represent the queues of `t`. */
  ghost predicate Linked(first: seq<int>, last: seq<int>, next: seq<int>, queues: seq<seq<int>>) {
    && |first| == |last| == |queues| == NPRIO && |next| == NPROC
    && forall i :: 0 <= i < NPRIO ==> IsList(first[i], last[i], next, queues[i])
  }

  lemma {:induction false} LinkedAppend(first: seq<int>, last: seq<int>, next: seq<int>, t: Table, p: int)
    requires Queued(t) && Linked(first, last, next, t.queues)
    requires IsSlot(p) && t.procs[p].state != RUNNABLE
    ensures var i := t.procs[p].priority;
            var l := last[i];
            l != NULL ==> 0 <= l < NPROC
    ensures var i := t.procs[p].priority;
            var l := last[i];
            Linked(if l != NULL then first else first[i := p], last[i := p],
                   (if l != NULL then next[l := p] else next)[p := NULL],
                   Enqueue(t, p).queues)
  {
    var i := t.procs[p].priority;
    var l, q := last[i], t.queues[i];
    assert IsList(first[i], l, next, q);
    assert p !in q;
    ListAppend(first[i], l, next, q, p);
    var n1 := if l != NULL then next[l := p] else next;
    forall j | 0 <= j < NPRIO && j != i ensures IsList(first[j], last[j], n1[p := NULL], t.queues[j]) {
      assert p !in t.queues[j];
      if l != NULL {
        assert l == q[|q| - 1] && l !in t.queues[j];
        ListFrame(first[j], last[j], next, t.queues[j], l, p);
      }
      ListFrame(first[j], last[j], n1, t.queues[j], p, NULL);
    }
  }

  ghost function Without(q: seq<int>, p: int): seq<int>
    requires p in q
  {
    q[..IndexOf(q, p)] + q[IndexOf(q, p) + 1..]
  }

  /** The arrays after unlinking p, given the element before it (NULL if p is first). */
  ghost predicate UnlinkedAfter(first: seq<int>, last: seq<int>, next: seq<int>, i: nat, p: int, prev: int,
        rest: seq<seq<int>>)
    requires |first| == |last| == NPRIO && |next| == NPROC && i < NPRIO && IsSlot(p)
  {
    var last' := if last[i] == p then last[i := prev] else last;
    if prev == NULL then Linked(first[i := next[p]], last', next, rest)
    else IsSlot(prev) && Linked(first, last', next[prev := next[p]], rest)
  }

  /** Facts about the queue that p is in. */
  lemma {:induction false} OwnQueue(first: seq<int>, last: seq<int>, next: seq<int>, t: Table, p: int)
    requires Queued(t) && Linked(first, last, next, t.queues)
    requires IsSlot(p) && t.procs[p].state == RUNNABLE
    ensures |t.procs| == NPROC && t.procs[p].priority < NPRIO == |t.queues|
    ensures var i := t.procs[p].priority;
            var q := t.queues[i];
            && p in q && Distinct(q) && IsList(first[i], last[i], next, q)
            && (forall j :: 0 <= j < NPRIO && j != i ==> forall k :: 0 <= k < |q| ==> q[k] !in t.queues[j])
  {
  }

  lemma {:induction false} LinkedRemove(first: seq<int>, last: seq<int>, next: seq<int>, t: Table, p: int)
    requires Queued(t) && Linked(first, last, next, t.queues)
    requires IsSlot(p) && t.procs[p].state == RUNNABLE
    ensures t.procs[p].priority < NPRIO == |t.queues|
    ensures var i := t.procs[p].priority;
            var q := t.queues[i];
            && p in q && Distinct(q) && IsList(first[i], last[i], next, q)
            && var k := IndexOf(q, p);
               && (first[i] == p <==> k == 0) && (k > 0 ==> IsSlot(q[k - 1]))
               && UnlinkedAfter(first, last, next, i, p, if k == 0 then NULL else q[k - 1],
                     t.queues[i := Without(q, p)])
  {
    hide Queued, IsList, IndexOf, Distinct;
    OwnQueue(first, last, next, t, p);
    var i := t.procs[p].priority;
    var q := t.queues[i];
    var k := IndexOf(q, p);
    ListRemove(first[i], last[i], next, q, k);
    var prev := if k == 0 then NULL else q[k - 1];
    forall j | 0 <= j < NPRIO && j != i && k > 0
      ensures IsList(first[j], last[j], next[prev := next[p]], t.queues[j])
    {
      ListFrame(first[j], last[j], next, t.queues[j], prev, next[p]);
    }
  }

  /** One round of the splice loop: the queues before n form one list ending at l, those from n
      on are untouched. */
  ghost predicate Spliced(f: int, l: int, next: seq<int>, first: seq<int>, last: seq<int>, t: Table, n: nat)
    requires Queued(t) && n <= NPRIO && |first| == |last| == NPRIO
  {
    && |next| == NPROC
    && IsList(f, l, next, Flatten(t.queues[..n])) && f != NULL
    && forall j :: n <= j < NPRIO ==> IsList(first[j], last[j], next, t.queues[j])
  }

  lemma {:induction false} ListEnds(f: int, l: int, next: seq<int>, q: seq<int>)
    requires IsList(f, l, next, q)
    ensures if q == [] then f == NULL && l == NULL else f == q[0] && l == q[|q| - 1] && l in q && f >= 0
  {
  }

  lemma {:induction false} QueuePriority(t: Table)
    requires Queued(t)
    ensures Shaped(t)
    ensures forall j, x :: 0 <= j < NPRIO && x in t.queues[j] ==> IsSlot(x) && t.procs[x].priority == j
  {
  }

  lemma {:induction false} FlattenNext(qs: seq<seq<int>>, n: nat)
    requires n < |qs|
    ensures Flatten(qs[..n + 1]) == Flatten(qs[..n]) + qs[n]
  {
    assert qs[..n + 1][..n] == qs[..n];
  }

  lemma {:induction false} SpliceNext(f: int, l: int, next: seq<int>, first: seq<int>, last: seq<int>, t: Table, n: nat)
    requires Queued(t) && n < NPRIO && |first| == |last| == NPRIO
    requires Spliced(f, l, next, first, last, t, n)
    ensures first[n] == NULL ==> Spliced(f, l, next, first, last, t, n + 1)
    ensures first[n] != NULL ==> IsSlot(l) && Spliced(f, last[n], next[l := first[n]], first, last, t, n + 1)
  {
    hide Queued, Flatten, IsList;
    ShapedOf(t);
    QueuePriority(t);
    var a, b := Flatten(t.queues[..n]), t.queues[n];
    FlattenNext(t.queues, n);
    ListEnds(f, l, next, a);
    ListEnds(first[n], last[n], next, b);
    if first[n] == NULL {
      assert b == [] && a + b == a;
    } else {
      FlattenFacts(t, n);
      FlattenFacts(t, n + 1);
      ListConcat(f, l, next, a, first[n], last[n], b);
      assert l in a;
      forall j | n < j < NPRIO ensures IsList(first[j], last[j], next[l := first[n]], t.queues[j]) {
        ListFrame(first[j], last[j], next, t.queues[j], l, first[n]);
      }
    }
  }

  lemma {:induction false} SpliceStart(first: seq<int>, last: seq<int>, next: seq<int>, t: Table, n: nat)
    requires Queued(t) && Linked(first, last, next, t.queues) && n < NPRIO
    requires first[n] != NULL && forall j :: 0 <= j < n ==> first[j] == NULL
    ensures |t.queues| == NPRIO && t.queues[..NPRIO] == t.queues
    ensures Spliced(first[n], last[n], next, first, last, t, n + 1)
  {
    hide Queued, Flatten;
    forall j | 0 <= j < n ensures t.queues[j] == [] { assert IsList(first[j], last[j], next, t.queues[j]); }
    FlattenLead(t.queues, n);
  }

  lemma {:induction false} FlattenLead(qs: seq<seq<int>>, n: nat)
    requires n < |qs| && forall j :: 0 <= j < n ==> qs[j] == []
    ensures Flatten(qs[..n + 1]) == qs[n]
  {
    EmptyFlatten(qs[..n]);
    assert qs[..n + 1][..n] == qs[..n];
  }

  lemma {:induction false} EmptyFlatten(qs: seq<seq<int>>)
    requires forall j :: 0 <= j < |qs| ==> qs[j] == []
    ensures Flatten(qs) == []
  {
    if qs != [] { EmptyFlatten(qs[..|qs| - 1]); }
  }

  lemma {:induction false} DispatchHead(t: Table)
    requires Queued(t) && FirstBusy(t.queues) < NPRIO
    ensures var i := FirstBusy(t.queues);
            var p := t.queues[i][0];
            && IsSlot(p) && t.procs[p].state == RUNNABLE && t.procs[p].priority == i
            && Without(t.queues[i], p) == t.queues[i][1..]
  {
  }

  /** The zeroed table before userinit. */
  ghost function Blank(): Table {
    Table(seq(NPROC, _ => Proc(UNUSED, 0, NULL, NoChan, false, 0, 0)), seq(NPRIO, _ => []), 1)
  }

  lemma {:induction false} BlankToInitial()
    ensures Queued(Blank()) && FreeSlot(Blank()) == INIT
    ensures Enqueue(Alloc(Blank()), INIT) == Initial()
  {
    var r := Enqueue(Alloc(Blank()), INIT);
    assert r.procs == Initial().procs;
    assert r.queues[0] == [INIT] && r.queues == Initial().queues;
  }

  lemma {:induction false} WakeNext(t: Table, chan: Chan, k: nat)
    requires Shaped(t) && k < NPROC
    ensures WakeFrom(t, chan, k) ==
            WakeFrom(if t.procs[k].state == SLEEPING && t.procs[k].chan == chan then Enqueue(t, k) else t, chan, k + 1)
  {
  }

  lemma {:induction false} ReparentNext(t: Table, p: int, k: nat)
    requires Shaped(t) && k < NPROC
    ensures ReparentFrom(t, p, k) ==
            if t.procs[k].parent == p then
              var u := t.(procs := t.procs[k := t.procs[k].(parent := INIT)]);
              ReparentFrom(if t.procs[k].state == ZOMBIE then Wakeup(u, OnProc(INIT)) else u, p, k + 1)
            else ReparentFrom(t, p, k + 1)
  {
  }

  lemma {:induction false} ScansEnd(t: Table, chan: Chan, p: int)
    requires Shaped(t)
    ensures WakeFrom(t, chan, NPROC) == t && ReparentFrom(t, p, NPROC) == t
  {
  }

  lemma {:induction false} ShapedOf(t: Table)
    requires Queued(t)
    ensures Shaped(t)
  {
  }

  class Ptable {
    const proc: array<Proc>
    const next: array<int>     // next_proc of each slot
    const first: array<int>    // queue_first
    const last: array<int>     // queue_last
    var nextpid: nat
    ghost var queues: seq<seq<int>>

    ghost predicate Shape()
      reads this
    {
      && proc.Length == next.Length == NPROC
      && first.Length == last.Length == NPRIO
      && next != first && next != last && first != last
    }

    ghost function Abs(): Table
      reads this, proc
    {
      Table(proc[..], queues, nextpid)
    }

    ghost predicate Valid()
      reads this, proc, next, first, last
    {
      Shape() && Queued(Abs()) && Linked(first[..], last[..], next[..], queues)
    }

    method Enqueue(p: int)
      requires Valid() && IsSlot(p) && proc[p].state != RUNNABLE
      modifies proc, next, first, last, this`queues
      ensures Valid() && Abs() == ProcTable.Enqueue(old(Abs()), p)
    {
      LinkedAppend(first[..], last[..], next[..], Abs(), p);
      EnqueueQueued(Abs(), p);
      var i := proc[p].priority;
      if last[i] != NULL {
        next[last[i]] := p;
      } else {
        first[i] := p;
      }
      next[p] := NULL;
      last[i] := p;
      proc[p] := proc[p].(state := RUNNABLE);
      queues := queues[i := queues[i] + [p]];
      assert Abs() == ProcTable.Enqueue(old(Abs()), p);
      ghost var l := old(last[i]);
      assert first[..] == if l != NULL then old(first[..]) else old(first[..])[i := p];
      assert next[..] == (if l != NULL then old(next[..])[l := p] else old(next[..]))[p := NULL];
      assert last[..] == old(last[..])[i := p];
    }

    /** The source's search for the element that points to p. */
    method Predecessor(i: nat, p: int, ghost q: seq<int>, ghost k: nat) returns (previous: int)
      requires Shape() && i < NPRIO && q != [] && IsList(first[i], last[i], next[..], q) && Distinct(q)
      requires 0 < k < |q| && q[k] == p
      ensures previous == q[k - 1]
    {
      previous := first[i];
      ghost var j := 0;
      while next[previous] != p
        invariant 0 <= j < k && previous == q[j]
        decreases k - j
      {
        assert next[q[j]] == q[j + 1];
        previous := next[previous];
        j := j + 1;
      }
      assert next[q[j]] == q[j + 1];
    }

    method Dequeue(p: int)
      requires Valid() && IsSlot(p) && proc[p].state == RUNNABLE
      modifies next, first, last, this`queues
      ensures Shape() && Linked(first[..], last[..], next[..], queues)
      ensures p in old(queues)[proc[p].priority]
      ensures queues == old(queues)[proc[p].priority := Without(old(queues)[proc[p].priority], p)]
    {
      hide Queued, Linked, IsList, Distinct, IndexOf, Without;
      LinkedRemove(first[..], last[..], next[..], Abs(), p);
      var i := proc[p].priority;
      ghost var q := queues[i];
      ghost var k := IndexOf(q, p);
      assert Shape();
      var previous := NULL;
      if first[i] == p {
        first[i] := next[p];
      } else {
        previous := Predecessor(i, p, q, k);
        next[previous] := next[p];
      }
      if last[i] == p {
        last[i] := previous;
      }
      queues := queues[i := Without(q, p)];
    }

    /** scheduler's search for the first non-empty queue, NPRIO if there is none. */
    method BusyQueue() returns (i: nat)
      requires Valid()
      ensures i == FirstBusy(queues) && i <= NPRIO
      ensures i < NPRIO ==> first[i] == queues[i][0]
    {
      hide Queued;
      i := 0;
      while i < NPRIO && first[i] == NULL
        invariant 0 <= i <= NPRIO
        invariant forall j :: 0 <= j < i ==> queues[j] == []
      {
        assert IsList(first[i], last[i], next[..], queues[i]);
        i := i + 1;
      }
      assert i < NPRIO ==> IsList(first[i], last[i], next[..], queues[i]);
    }

    /** One pass of scheduler's loop up to the context switch; the process that resumes clears
        its channel before it releases ptable.lock. */
    method Schedule() returns (p: int)
      requires Valid()
      modifies proc, next, first, last, this`queues
      ensures Valid()
      ensures p == NULL <==> FirstBusy(old(queues)) == NPRIO
      ensures p == NULL ==> Abs() == old(Abs())
      ensures p != NULL ==> p == old(queues)[FirstBusy(old(queues))][0] && Abs() == Dispatch(old(Abs()))
    {
      hide Queued, Linked;
      var i := BusyQueue();
      if i == NPRIO {
        return NULL;
      }
      p := first[i];
      DispatchQueued(Abs());
      DispatchHead(Abs());
      Dequeue(p);
      proc[p] := proc[p].(state := RUNNING, chan := NoChan);
    }

    method PriorityBoost()
      requires Valid()
      modifies proc, next, first, last, this`queues
      ensures Valid() && Abs() == Boost(old(Abs()))
    {
      hide Flatten, Queued, Linked, IsList;
      ghost var t := Abs();
      BoostQueued(t);
      ClearPriorities();
      var f := BusyHead(t);
      if f < NPRIO {
        Splice(f, t);
      }
      ClearTails(Flatten(t.queues));
      queues := Boost(t).queues;
    }

    /** priority_boost's search for the first non-empty queue. */
    method BusyHead(ghost t: Table) returns (f: nat)
      requires Shape() && queues == t.queues && Linked(first[..], last[..], next[..], queues)
      ensures f <= NPRIO && (f < NPRIO ==> first[f] != NULL)
      ensures forall j :: 0 <= j < f ==> first[j] == NULL
      ensures f == NPRIO ==> IsList(first[0], last[0], next[..], Flatten(t.queues))
    {
      f := 0;
      while f < NPRIO && first[f] == NULL
        invariant 0 <= f <= NPRIO
        invariant forall j :: 0 <= j < f ==> first[j] == NULL
      {
        f := f + 1;
      }
      if f == NPRIO {
        assert forall j :: 0 <= j < NPRIO ==> IsList(first[j], last[j], next[..], queues[j]) && queues[j] == [];
        EmptyFlatten(queues);
      }
    }

    method ClearTails(ghost q: seq<int>)
      requires Shape() && IsList(first[0], last[0], next[..], q)
      modifies first, last
      ensures Shape() && Linked(first[..], last[..], next[..], [q] + seq(NPRIO - 1, _ => []))
    {
      var i := 1;
      while i < NPRIO
        invariant 1 <= i <= NPRIO && Shape()
        invariant first[0] == old(first[0]) && last[0] == old(last[0])
        invariant forall j :: 1 <= j < i ==> first[j] == NULL && last[j] == NULL
      {
        first[i] := NULL;
        last[i] := NULL;
        i := i + 1;
      }
    }

    method ClearPriorities()
      requires Valid()
      modifies proc
      ensures proc[..] == Boost(old(Abs())).procs
    {
      var p := 0;
      while p < NPROC
        invariant 0 <= p <= NPROC == proc.Length
        invariant forall j :: 0 <= j < p ==> proc[j] == old(proc[j]).(priority := 0)
        invariant forall j :: p <= j < NPROC ==> proc[j] == old(proc[j])
      {
        proc[p] := proc[p].(priority := 0);
        p := p + 1;
      }
    }

    /** The splice of priority_boost, from the first non-empty queue f. */
    method Splice(f: nat, ghost t: Table)
      requires Shape() && Queued(t) && queues == t.queues && Linked(first[..], last[..], next[..], queues)
      requires f < NPRIO && first[f] != NULL && forall j :: 0 <= j < f ==> first[j] == NULL
      modifies next, first, last
      ensures Shape() && IsList(first[0], last[0], next[..], Flatten(t.queues))
    {
      hide Queued, Linked, IsList, Flatten;
      ghost var first0, last0 := first[..], last[..];
      SpliceStart(first0, last0, next[..], t, f);
      first[0] := first[f];
      var l := last[f];
      var i := f + 1;
      while i < NPRIO
        invariant f + 1 <= i <= NPRIO && Shape()
        invariant first[0] == first0[f] && first[1..] == first0[1..] && last[..] == last0
        invariant Spliced(first[0], l, next[..], first0, last0, t, i)
      {
        SpliceNext(first[0], l, next[..], first0, last0, t, i);
        assert first[i] == first[1..][i - 1] == first0[1..][i - 1] == first0[i];
        if first[i] != NULL {
          next[l] := first[i];
          l := last[i];
        }
        i := i + 1;
      }
      last[0] := l;
    }

    /** pinit and userinit: one runnable process, init, in slot 0. */
    constructor ()
      ensures Valid() && Abs() == Initial()
    {
      var free := Proc(UNUSED, 0, NULL, NoChan, false, 0, 0);
      proc := new Proc[NPROC](_ => free);
      next := new int[NPROC](_ => NULL);
      first := new int[NPRIO](_ => NULL);
      last := new int[NPRIO](_ => NULL);
      nextpid := 1;
      queues := seq(NPRIO, _ => []);
      new;
      hide Queued;
      assert proc[..] == Blank().procs && queues == Blank().queues;
      BlankToInitial();
      var p := AllocProc();
      Enqueue(p);
    }

    method AllocProc() returns (p: int)
      requires Valid()
      modifies proc, this`nextpid
      ensures Valid()
      ensures p == NULL <==> FreeSlot(old(Abs())) == NPROC
      ensures p == NULL ==> Abs() == old(Abs())
      ensures p != NULL ==> p == FreeSlot(old(Abs())) && Abs() == Alloc(old(Abs()))
    {
      hide Linked;
      p := 0;
      while p < NPROC
        invariant 0 <= p <= NPROC
        invariant forall j :: 0 <= j < p ==> proc[j].state != UNUSED
        invariant Abs() == old(Abs()) && nextpid == old(nextpid)
      {
        if proc[p].state == UNUSED {
          assert FreeSlot(old(Abs())) == p;
          proc[p] := proc[p].(state := EMBRYO, pid := nextpid, priority := 0);
          nextpid := nextpid + 1;
          QueuedFrame(old(Abs()), Abs());
          return;
        }
        p := p + 1;
      }
      p := NULL;
    }

    /** fork's failure path. */
    method AbandonChild(np: int)
      requires Valid() && IsSlot(np) && proc[np].state == EMBRYO
      modifies proc
      ensures Valid() && Abs() == Abandon(old(Abs()), np)
    {
      hide Linked;
      proc[np] := proc[np].(state := UNUSED);
      QueuedFrame(old(Abs()), Abs());
    }

    /** fork's success path, from the assignment of the parent on. */
    method PublishChild(p: int, np: int)
      requires Valid() && IsSlot(np) && proc[np].state == EMBRYO
      modifies proc, next, first, last, this`queues
      ensures Valid() && Abs() == Publish(old(Abs()), p, np)
    {
      hide Linked, Queued;
      proc[np] := proc[np].(parent := p);
      ShapedOf(old(Abs()));
      QueuedFrame(old(Abs()), Abs());
      Enqueue(np);
    }

    method YieldCpu(p: int)
      requires Valid() && IsSlot(p) && proc[p].state == RUNNING
      modifies proc, next, first, last, this`queues
      ensures Valid() && Abs() == Yield(old(Abs()), p)
    {
      hide Linked, Queued;
      ShapedOf(Abs());
      proc[p] := proc[p].(priority := proc[p].priority + if proc[p].priority == NPRIO - 1 then 0 else 1);
      proc[p] := proc[p].(ticks := 0);
      QueuedFrame(old(Abs()), Abs());
      Enqueue(p);
    }

    /** The quantum check of trap on a timer interrupt. */
    method TimerTrap(p: int)
      requires Valid() && IsSlot(p) && proc[p].state == RUNNING
      modifies proc, next, first, last, this`queues
      ensures Valid() && Abs() == Charge(old(Abs()), p)
    {
      hide Linked, Queued;
      ShapedOf(Abs());
      proc[p] := proc[p].(ticks := proc[p].ticks + 1);
      QueuedFrame(old(Abs()), Abs());
      if Pow2(proc[p].priority) <= proc[p].ticks {
        YieldCpu(p);
      }
    }

    method SleepOn(p: int, chan: Chan)
      requires Valid() && IsSlot(p) && proc[p].state == RUNNING
      modifies proc
      ensures Valid() && Abs() == Sleep(old(Abs()), p, chan)
    {
      hide Linked, Queued;
      ShapedOf(Abs());
      proc[p] := proc[p].(chan := chan);
      proc[p] := proc[p].(state := SLEEPING);
      QueuedFrame(old(Abs()), Abs());
    }

    method Wakeup1(chan: Chan)
      requires Valid()
      modifies proc, next, first, last, this`queues
      ensures Valid() && Shaped(old(Abs())) && Abs() == Wakeup(old(Abs()), chan)
    {
      hide Linked, Queued, WakeFrom;
      ShapedOf(Abs());
      var p := 0;
      while p < NPROC
        invariant 0 <= p <= NPROC && Valid() && Shaped(Abs())
        invariant WakeFrom(Abs(), chan, p) == Wakeup(old(Abs()), chan)
      {
        ghost var t := Abs();
        if proc[p].state == SLEEPING && proc[p].chan == chan {
          Enqueue(p);
        }
        WakeNext(t, chan, p);
        p := p + 1;
      }
      ScansEnd(Abs(), chan, p);
    }

    /** kill; `found` is false where the source returns -1. */
    method KillPid(pid: nat) returns (found: bool)
      requires Valid()
      modifies proc, next, first, last, this`queues
      ensures Valid() && Shaped(old(Abs())) && Abs() == Kill(old(Abs()), pid)
      ensures found <==> exists p :: 0 <= p < NPROC && old(Abs()).procs[p].pid == pid
    {
      hide Linked, Queued;
      ShapedOf(Abs());
      var p := 0;
      while p < NPROC
        invariant 0 <= p <= NPROC && Valid() && Abs() == old(Abs())
        invariant forall j :: 0 <= j < p ==> proc[j].pid != pid
      {
        if proc[p].pid == pid {
          assert PidSlot(old(Abs()), pid) == p;
          proc[p] := proc[p].(killed := true);
          QueuedFrame(old(Abs()), Abs());
          if proc[p].state == SLEEPING {
            Enqueue(p);
          }
          return true;
        }
        p := p + 1;
      }
      found := false;
    }

    /** exit from the point where it holds ptable.lock; `ok` is false where init panics. */
    method ExitProc(p: int) returns (ok: bool)
      requires Valid() && IsSlot(p) && proc[p].state == RUNNING
      modifies proc, next, first, last, this`queues
      ensures Valid() && Shaped(old(Abs())) && ok == (p != INIT)
      ensures Abs() == if ok then Exit(old(Abs()), p) else old(Abs())
    {
      hide Linked, Queued;
      ShapedOf(Abs());
      if p == INIT {
        return false;
      }
      WakeEffect(Abs(), OnProc(proc[p].parent), 0);
      Wakeup1(OnProc(proc[p].parent));
      ReparentAll(p);
      proc[p] := proc[p].(state := ZOMBIE);
      ghost var u := ReparentFrom(Wakeup(old(Abs()), OnProc(old(proc[p].parent))), p, 0);
      QueuedFrame(u, Abs());
      ok := true;
    }

    method ReparentAll(p: int)
      requires Valid() && Shaped(Abs()) && IsSlot(p) && proc[p].state == RUNNING
      modifies proc, next, first, last, this`queues
      ensures Valid() && Shaped(Abs()) && Abs() == ReparentFrom(old(Abs()), p, 0)
      ensures proc[p].state == RUNNING
    {
      hide Linked, Queued, ReparentFrom, WakeFrom, Wakeup;
      var q := 0;
      while q < NPROC
        invariant 0 <= q <= NPROC && Valid() && Shaped(Abs()) && proc[p].state == RUNNING
        invariant ReparentFrom(Abs(), p, q) == ReparentFrom(old(Abs()), p, 0)
      {
        ghost var t := Abs();
        if proc[q].parent == p {
          AdoptByInit(q);
        }
        ReparentNext(t, p, q);
        q := q + 1;
      }
      ScansEnd(Abs(), NoChan, p);
    }

    method AdoptByInit(q: int)
      requires Valid() && Shaped(Abs()) && IsSlot(q)
      modifies proc, next, first, last, this`queues
      ensures Valid() && Shaped(Abs())
      ensures var u := old(Abs()).(procs := old(Abs()).procs[q := old(proc[q]).(parent := INIT)]);
              Shaped(u) && Abs() == if old(proc[q]).state == ZOMBIE then Wakeup(u, OnProc(INIT)) else u
      ensures forall p :: 0 <= p < NPROC && old(proc[p]).state == RUNNING ==> proc[p].state == RUNNING
    {
      hide Linked, Queued;
      proc[q] := proc[q].(parent := INIT);
      QueuedFrame(old(Abs()), Abs());
      if proc[q].state == ZOMBIE {
        WakeEffect(Abs(), OnProc(INIT), 0);
        Wakeup1(OnProc(INIT));
      }
    }

    /** One pass of wait's loop, ending in a return or in sleep. */
    method WaitPass(p: int) returns (r: WaitResult)
      requires Valid() && IsSlot(p) && proc[p].state == RUNNING
      modifies proc
      ensures Valid() && Shaped(old(Abs()))
      ensures r == WaitOutcome(old(Abs()), p) && Abs() == Wait(old(Abs()), p)
      ensures r.Reaped? <==> exists c :: 0 <= c < NPROC && old(proc[c]).parent == p && old(proc[c]).state == ZOMBIE
      ensures !r.Reaped? ==>
                (r.Slept? <==> !old(proc[p]).killed && exists c :: 0 <= c < NPROC && old(proc[c]).parent == p)
    {
      hide Linked, Queued;
      ShapedOf(Abs());
      var havekids := false;
      var q := 0;
      while q < NPROC
        invariant 0 <= q <= NPROC && Valid() && Abs() == old(Abs())
        invariant havekids <==> exists j :: 0 <= j < q && proc[j].parent == p
        invariant forall j :: 0 <= j < q ==> !(proc[j].parent == p && proc[j].state == ZOMBIE)
      {
        if proc[q].parent == p {
          havekids := true;
          if proc[q].state == ZOMBIE {
            assert ZombieChild(old(Abs()), p) == q;
            r := Reaped(proc[q].pid);
            proc[q] := proc[q].(pid := 0, parent := NULL, killed := false, state := UNUSED);
            QueuedFrame(old(Abs()), Abs());
            return;
          }
        }
        q := q + 1;
      }
      assert ZombieChild(old(Abs()), p) == NPROC;
      assert havekids == HasKids(old(Abs()), p);
      if !havekids || proc[p].killed {
        return NoChildren;
      }
      SleepOn(p, OnProc(p));
      r := Slept;
    }
  }
}
