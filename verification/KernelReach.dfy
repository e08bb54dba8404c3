/** A run from boot to a state in which a thread has been reclaimed while others go on.

    A state is reached if some run ends in it, and what an enabled step makes of a reached state
    is reached too.  The idle thread starts and yields to thread 2, the one that boot makes for
    the cartridge.  Thread 2 makes thread 3 and exits, which brings back the idle thread, and the
    idle thread yields to thread 3, which may then reclaim what is left of thread 2.  Each state
    on the way is written out.  That each is what the steps make of the one before follows from
    the closed forms that KernelRuns.dfy gives of the steps under the invariant, which every
    reached state satisfies, so that no bracket and no critical section has to be computed here,
    only what the switch does to the two blocks, to the lists and to the two positions. */
module KernelReach {
  import opened SchedulerSpec
  import opened Kernel
  import opened KernelInvariant
  import opened KernelSteps
  import opened KernelRuns

  lemma ReachedNext(g: Kernel, step: Step)
    requires Reached(g) && Enabled(g, step)
    ensures Reached(Apply(g, step))
  {
    var gs, steps :| IsRun(gs, steps) && gs[|gs| - 1] == g;
    RunMore(gs, steps, step);
  }

  lemma RunMore(gs: seq<Kernel>, steps: seq<Step>, step: Step)
    requires IsRun(gs, steps) && Enabled(gs[|gs| - 1], step)
    ensures IsRun(gs + [Apply(gs[|gs| - 1], step)], steps + [step])
  {
    var gs1, steps1 := gs + [Apply(gs[|gs| - 1], step)], steps + [step];
    forall k | 0 <= k < |gs1| ensures StateOf(gs1, steps1, k) {
      if k < |gs| { assert StateOf(gs, steps, k); }
    }
  }

  lemma ReachedInv(g: Kernel)
    requires Reached(g)
    ensures Inv(g) && NestIs(g, 0)
  {
    var gs, steps :| IsRun(gs, steps) && gs[|gs| - 1] == g;
    RunInv(gs, steps, |gs| - 1);
  }

  lemma ResumesInto(g: Kernel)
    requires Reached(g) && g.resuming && g.s.running in g.threads && g.s.running in g.s.tcbs
    ensures Reached(SwitchIn(g))
  {
    ReachedInv(g);
    ResumeKeeps(g);
    ReachedNext(g, Resume);
  }

  /** A yield, and what the next thread does first. */
  lemma Yields(g: Kernel, g1: Kernel)
    requires Reached(g) && Acting(g) && Me(g).pos.User? && CanSwitch(g.s) && g1 == YieldOut(g, false)
    requires g1.s.running in g1.threads
    ensures Reached(SwitchIn(g1))
  {
    ReachedInv(g);
    YieldKeeps(g);
    ReachedNext(g, YieldStep);
    ResumesInto(g1);
  }

  lemma Exits(g: Kernel, g1: Kernel)
    requires Reached(g) && Acting(g) && Me(g).pos.User? && g.s.running != IDLE && CanSwitch(g.s) && g1 == ExitOut(g)
    requires g1.s.running in g1.threads
    ensures Reached(SwitchIn(g1))
  {
    ReachedInv(g);
    ExitKeeps(g);
    ReachedNext(g, ExitStep);
    ResumesInto(g1);
  }

  /** The idle thread runs, for the first time. */
  function IdleRuns(): Kernel {
    Booted().(s := Booted().s.(nest := 0), threads := Booted().threads[1 := Thread(User, false, {})], resuming := false)
  }

  lemma BootReached()
    ensures Reached(IdleRuns())
  {
    BootForm();
    var gs, steps: seq<Step> := [Boot()], [];
    assert IsRun(gs, steps);
    ReachedNext(Booted(), Resume);
  }

  /** It has yielded to thread 2. */
  function SecondRuns(): Kernel {
    IdleRuns().(s := Sched(2, 2, [1], [], map[0 := DEFAULT_TCB, 1 := Tcb(READY, 0, 1, 1), 2 := Tcb(RUNNING, 1, 2, 2)], 0, false),
                threads := map[1 := Thread(YieldTail, false, {}), 2 := Thread(User, false, {})])
  }

  lemma IdleYields(g: Kernel)
    requires g == IdleRuns()
    ensures CanSwitch(g.s) && g.s.running in g.threads && 2 in g.threads && SwitchIn(YieldOut(g, false)) == SecondRuns()
  {
    assert SwitchIn(YieldOut(g, false)).s.tcbs == SecondRuns().s.tcbs;
  }

  lemma SecondReached(g: Kernel)
    requires g == IdleRuns()
    ensures Reached(SecondRuns())
  {
    BootReached();
    IdleYields(g);
    Yields(g, YieldOut(g, false));
  }

  /** A state with the objects of three threads. */
  function Three(s: Sched, threads: map<int, Thread>, resuming: bool): Kernel {
    Kernel(s, map[1 := FRESH_MUTEX, 2 := FRESH_MUTEX, 3 := FRESH_MUTEX], 3, map[1 := [], 2 := [], 3 := []], 3, threads, resuming,
           NO_OWNER, 0)
  }

  /** Thread 2 has made thread 3. */
  function ThirdMade(): Kernel {
    Three(Sched(2, 3, [1, 3], [], map[0 := DEFAULT_TCB, 1 := Tcb(READY, 0, 1, 1), 2 := Tcb(RUNNING, 1, 2, 2), 3 := Tcb(READY, 1, 3, 3)],
                0, false),
          map[1 := Thread(YieldTail, false, {}), 2 := Thread(User, false, {}), 3 := Thread(Fresh, false, {})], false)
  }

  lemma SecondCreates()
    ensures Enabled(SecondRuns(), CreateStep) && Apply(SecondRuns(), CreateStep) == ThirdMade()
  {
    CreateForm(SecondRuns().s, 3, 3);
  }

  /** It has exited: right after the context switch. */
  function SecondLeft(): Kernel {
    Three(Sched(1, 3, [3], [2], map[0 := DEFAULT_TCB, 1 := Tcb(RUNNING, 0, 1, 1), 2 := Tcb(FINISHED, 0, 2, 2), 3 := Tcb(READY, 1, 3, 3)],
                1, false),
          map[1 := Thread(YieldTail, false, {}), 2 := Thread(Gone, false, {}), 3 := Thread(Fresh, false, {})], true)
  }

  /** The idle thread runs again. */
  function SecondGone(): Kernel {
    Three(Sched(1, 3, [3], [2], map[0 := DEFAULT_TCB, 1 := Tcb(RUNNING, 1, 1, 1), 2 := Tcb(FINISHED, 0, 2, 2), 3 := Tcb(READY, 1, 3, 3)],
                0, false),
          map[1 := Thread(User, false, {}), 2 := Thread(Gone, false, {}), 3 := Thread(Fresh, false, {})], false)
  }

  lemma ThirdMadeReached()
    ensures Reached(ThirdMade())
  {
    SecondReached(IdleRuns());
    SecondCreates();
    ReachedNext(SecondRuns(), CreateStep);
  }

  lemma SecondExits(g: Kernel)
    requires g == ThirdMade()
    ensures CanSwitch(g.s) && g.s.running in g.threads && ExitOut(g) == SecondLeft()
  {
    assert Switched(g.s, FINISHED, 0).tcbs == SecondLeft().s.tcbs;
    assert g.threads[2 := Thread(Gone, false, {})] == SecondLeft().threads;
  }

  lemma IdleResumes(g: Kernel)
    requires g == SecondLeft()
    ensures g.s.running in g.threads && g.s.running in g.s.tcbs && SwitchIn(g) == SecondGone()
  {
    var tcbs, threads := g.s.tcbs, g.threads;
    assert tcbs[1 := Tcb(RUNNING, 1, 1, 1)] == SecondGone().s.tcbs;
    assert threads[1 := Thread(User, false, {})] == SecondGone().threads;
  }

  lemma GoneReached(g: Kernel)
    requires g == ThirdMade()
    ensures Reached(SecondGone())
  {
    ThirdMadeReached();
    SecondExits(g);
    IdleResumes(ExitOut(g));
    Exits(g, ExitOut(g));
  }

  /** Thread 3 runs. */
  function ThirdRuns(): Kernel {
    Three(Sched(3, 3, [1], [2], map[0 := DEFAULT_TCB, 1 := Tcb(READY, 0, 1, 1), 2 := Tcb(FINISHED, 0, 2, 2), 3 := Tcb(RUNNING, 1, 3, 3)],
                0, false),
          map[1 := Thread(YieldTail, false, {}), 2 := Thread(Gone, false, {}), 3 := Thread(User, false, {})], false)
  }

  lemma IdleYieldsAgain(g: Kernel)
    requires g == SecondGone()
    ensures CanSwitch(g.s) && g.s.running in g.threads && 3 in g.threads && SwitchIn(YieldOut(g, false)) == ThirdRuns()
  {
    assert SwitchIn(YieldOut(g, false)).s.tcbs == ThirdRuns().s.tcbs;
  }

  lemma ThirdReached(g: Kernel)
    requires g == SecondGone()
    ensures Reached(ThirdRuns())
  {
    GoneReached(ThirdMade());
    IdleYieldsAgain(g);
    Yields(g, YieldOut(g, false));
  }
}
