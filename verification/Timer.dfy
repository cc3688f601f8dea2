/** The timer branch of trap (kernel/trap.c) on the processor that keeps the time. */
module Timer {
  import opened Common
  import opened ProcTable
  import opened PtableLists
  import opened ProcRuns

  class Clock {
    const ptable: Ptable
    var ticks: nat         // uint ticks

    constructor (ptable: Ptable)
      ensures this.ptable == ptable && ticks == 0
    {
      this.ptable := ptable;
      ticks := 0;
    }

    /** One interrupt, undisturbed by other processors, takes the clock step of the transition
        system, and then its boost step exactly when BOOSTTIMER divides the new time. */
    method Tick(ghost s: Sys)
      requires ptable.Valid() && ticks < UINT && s.t == ptable.Abs() && s.ticks == ticks && !s.boostDue
      requires |s.doing| == NPROC
      modifies this, ptable.proc, ptable.next, ptable.first, ptable.last, ptable`queues
      ensures ptable.Valid() && ticks == (old(ticks) + 1) % UINT
      ensures Enabled(s, ClockStep)
      ensures var u := Do(s, ClockStep);
              && u.ticks == ticks && (Enabled(u, BoostStep) <==> ticks % BOOSTTIMER == 0)
              && ptable.Abs() == if ticks % BOOSTTIMER == 0 then Do(u, BoostStep).t else u.t
    {
      hide Linked, Queued, Boost, Wakeup, Flatten, Exit, Kill, Alloc, Abandon, Publish, Sleep, Wait, Charge, Dispatch;
      ShapedOf(ptable.Abs());
      ticks := (ticks + 1) % UINT;
      ptable.Wakeup1(TICKS);
      ShapedOf(ptable.Abs());
      assert ptable.Abs() == Do(s, ClockStep).t;
      if ticks % BOOSTTIMER == 0 {
        ptable.PriorityBoost();
      }
    }
  }
}
