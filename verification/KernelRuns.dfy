/** Every step keeps the invariant, so every state of every run satisfies it.

    KernelSteps.dfy has what the primitives keep: giving up the processor, taking it, queueing,
    waking, passing on a mutex.  Here each kernel step is put together from these.  A lemma named
    after the step says which primitives it comes to, in closed form, and that the invariant and
    the balance of the counters hold afterwards.  The timer interrupt takes the most: the tick
    may make the sleep timer, wakes everybody who sleeps, and then perhaps switches, all inside
    one count of the critical section.  The boot sequence is computed, state by state, and the
    induction over runs comes last. */
module KernelRuns {
  import opened SchedulerSpec
  import opened Kernel
  import opened KernelInvariant
  import opened KernelSteps

  // ---- creation and reclaiming ------------------------------------------------

  lemma NewMutexThread(g: Kernel, t: int)
    requires Tables(g) && t in g.threads && ThreadOk(g, t)
    ensures ThreadOk(NewMutex(g), t)
  {
    assert g.mutexSeq + 1 !in g.mutexes;
  }

  lemma NewMutexKeeps(g: Kernel)
    requires Inv(g)
    ensures Inv(NewMutex(g))
  {
    var g' := NewMutex(g);
    forall t | t in g'.threads ensures ThreadOk(g', t) { NewMutexThread(g, t); }
    forall k | k in g'.mutexes ensures MutexOk(g', k) { if k in g.mutexes { assert MutexOk(g, k); } }
    forall k | k in g'.conds ensures CondOk(g', k) { assert CondOk(g, k); }
  }

  lemma NewCondThread(g: Kernel, t: int)
    requires Tables(g) && t in g.threads && ThreadOk(g, t)
    ensures ThreadOk(NewCond(g), t)
  {
    assert g.condSeq + 1 !in g.conds;
  }

  lemma NewCondKeeps(g: Kernel)
    requires Inv(g)
    ensures Inv(NewCond(g))
  {
    var g' := NewCond(g);
    forall t | t in g'.threads ensures ThreadOk(g', t) { NewCondThread(g, t); }
    forall k | k in g'.mutexes ensures MutexOk(g', k) { assert MutexOk(g, k); }
    forall k | k in g'.conds ensures CondOk(g', k) { if k in g.conds { assert CondOk(g, k); } }
  }

  function Spawn(g: Kernel): Kernel {
    var id := g.s.counter + 1;
    g.(s := g.s.(counter := id, tcbs := g.s.tcbs[id := Tcb(READY, 1, g.mutexSeq, g.condSeq)], ready := g.s.ready + [id]),
       threads := g.threads[id := Thread(Fresh, false, {})])
  }

  lemma SpawnTables(g: Kernel)
    requires Inv(g)
    ensures Base(Spawn(g))
  {
    var id := g.s.counter + 1;
    assert id !in g.threads && id !in g.s.ready;
    PushBack(g.s.ready, id);
  }

  lemma SpawnThread(g: Kernel, t: int)
    requires Base(g) && t in Spawn(g).threads && (t in g.threads ==> ThreadOk(g, t))
    ensures ThreadOk(Spawn(g), t)
  {
    assert g.s.counter + 1 !in g.threads;
  }

  lemma SpawnKeeps(g: Kernel)
    requires Inv(g)
    ensures Inv(Spawn(g))
  {
    var g' := Spawn(g);
    SpawnTables(g);
    forall t | t in g'.threads ensures ThreadOk(g', t) { SpawnThread(g, t); }
    forall k | k in g'.mutexes ensures MutexOk(g', k) { assert MutexOk(g, k); }
    forall k | k in g'.conds ensures CondOk(g', k) { assert CondOk(g, k); }
  }

  lemma ReclaimKeeps(g: Kernel)
    requires Inv(g)
    ensures Inv(g.(s := Reclaim(g.s)))
  {
    var g' := g.(s := Reclaim(g.s));
    forall t | t in g'.threads ensures ThreadOk(g', t) { assert ThreadOk(g, t); }
    forall k | k in g'.mutexes ensures MutexOk(g', k) { assert MutexOk(g, k); }
    forall k | k in g'.conds ensures CondOk(g', k) { assert CondOk(g, k); }
  }

  /** join reads the block of its target through operator[]. */
  lemma JoinEntryKeeps(g: Kernel, tid: int)
    requires Inv(g) && (tid in g.s.tcbs || tid < 0 || tid > g.s.counter)
    ensures Inv(g.(s := JoinEntry(g.s, tid)))
  {
    var g' := g.(s := JoinEntry(g.s, tid));
    forall t | t in g'.threads ensures ThreadOk(g', t) { assert ThreadOk(g, t); }
    forall k | k in g'.mutexes ensures MutexOk(g', k) { assert MutexOk(g, k); }
    forall k | k in g'.conds ensures CondOk(g', k) { assert CondOk(g, k); }
  }

  /** The invariant reads neither the nesting counter nor the tick fields. */
  lemma CountersFree(g: Kernel, g': Kernel)
    requires Inv(g)
    requires g' == g.(s := g.s.(nest := g'.s.nest), systick := g'.systick, sleepCond := g'.sleepCond)
    ensures Inv(g')
  {
    forall t | t in g'.threads ensures ThreadOk(g', t) { assert ThreadOk(g, t); }
    forall k | k in g'.mutexes ensures MutexOk(g', k) { assert MutexOk(g, k); }
    forall k | k in g'.conds ensures CondOk(g', k) { assert CondOk(g, k); }
  }

  // ---- what the idle thread buys ----------------------------------------------

  lemma CanRunNow(g: Kernel)
    requires Inv(g) && Acting(g)
    ensures CanRun(g.s)
  {
    assert ThreadOk(g, g.s.running);
  }

  lemma NextIsOther(g: Kernel)
    requires Inv(g) && g.s.ready != []
    ensures CanSwitch(g.s)
  {
    var n := g.s.ready[0];
    assert n in g.s.ready && Live(g, n);
    assert ThreadOk(g, n) && ThreadOk(g, g.s.running);
  }

  /** A running thread other than the idle thread always sees a non-empty ready list. */
  lemma ReadyNeverEmpty(g: Kernel)
    requires Inv(g) && g.s.running != IDLE
    ensures IDLE in g.s.ready && CanSwitch(g.s)
  {
    assert ThreadOk(g, IDLE);
    NextIsOther(g);
  }

  // ---- the steps --------------------------------------------------------------

  predicate Ready0(g: Kernel) { Acting(g) && NestIs(g, 0) }

  lemma LockKeeps(g: Kernel, m: int)
    requires Inv(g) && Ready0(g) && m in g.mutexes && g.s.running != IDLE
    ensures var free := !g.mutexes[m].IsLocked() || g.mutexes[m].owner == g.s.running;
      && (!free ==> CanSwitch(g.s))
      && ApplyLock(g, m) == (if free then Acquire(g, m) else Block(g, m))
    ensures Inv(ApplyLock(g, m)) && NestIs(ApplyLock(g, m), 0)
  {
    CanRunNow(g);
    ReadyNeverEmpty(g);
    LockForm(g.s, g.mutexes[m]);
    if !g.mutexes[m].IsLocked() || g.mutexes[m].owner == g.s.running {
      AcquireKeeps(g, m);
    } else {
      BlockKeeps(g, m);
    }
  }

  lemma TryLockKeeps(g: Kernel, m: int)
    requires Inv(g) && Ready0(g) && m in g.mutexes && Me(g).pos.User?
    ensures ApplyTryLock(g, m) == if g.mutexes[m].IsLocked() then g else Acquire(g, m)
    ensures Inv(ApplyTryLock(g, m)) && NestIs(ApplyTryLock(g, m), 0)
  {
    CanRunNow(g);
    Bracket(g.s);
    if g.mutexes[m].IsLocked() {
      assert g.mutexes[m := g.mutexes[m]] == g.mutexes;
      assert g.threads[g.s.running := Me(g)] == g.threads;
    } else {
      AcquireKeeps(g, m);
    }
  }

  function Release(g: Kernel, m: int): Kernel
    requires g.s.running in g.threads && m in g.mutexes
  {
    if g.mutexes[m].waiting == [] then Drop(g, m) else HandOff(g, m)
  }

  lemma UnlockKeeps(g: Kernel, m: int)
    requires Inv(g) && Ready0(g) && m in g.mutexes && m in Me(g).holds
    ensures g.mutexes[m].owner == g.s.running
    ensures g.mutexes[m].waiting != [] ==> BlockedOn(g, g.mutexes[m].waiting[0], m)
    ensures ApplyUnlock(g, m) == Release(g, m)
    ensures Inv(Release(g, m)) && NestIs(Release(g, m), 0) && Ready0(Release(g, m))
  {
    CanRunNow(g);
    assert ThreadOk(g, g.s.running) && MutexOk(g, m);
    if g.mutexes[m].waiting != [] {
      var n := g.mutexes[m].waiting[0];
      assert n in g.mutexes[m].waiting && BlockedOn(g, n, m);
      assert ThreadOk(g, n);
      HandOffKeeps(g, m);
    } else {
      DropKeeps(g, m);
    }
    UnlockForm(g.s, g.mutexes[m]);
  }

  lemma WaitReady(g: Kernel, m: int)
    requires Inv(g) && Ready0(g) && m in g.mutexes && m in Me(g).holds && g.s.running != IDLE
    ensures CanRun(g.s) && CanSwitch(g.s) && g.mutexes[m].owner == g.s.running
    ensures g.mutexes[m].waiting != [] ==> g.mutexes[m].waiting[0] in g.s.tcbs && g.mutexes[m].waiting[0] != g.s.running
    ensures ApplyUnlock(g, m) == Release(g, m)
  {
    CanRunNow(g);
    ReadyNeverEmpty(g);
    UnlockKeeps(g, m);
    if g.mutexes[m].waiting != [] { assert Live(g, g.mutexes[m].waiting[0]) && ThreadOk(g, g.s.running); }
  }

  lemma WaitShape(g: Kernel, c: int, m: int)
    requires Ready0(g) && m in g.mutexes && c in g.conds
    requires CanRun(g.s) && CanSwitch(g.s) && g.mutexes[m].owner == g.s.running
    requires g.mutexes[m].waiting != [] ==> g.mutexes[m].waiting[0] in g.s.tcbs && g.mutexes[m].waiting[0] != g.s.running
    requires ApplyUnlock(g, m) == Release(g, m)
    ensures CanSwitch(Release(g, m).s)
    ensures ApplyWait(g, c, m) == Sleep(Release(g, m), c, m)
  {
    WaitForm(g.s, g.conds[c], g.mutexes[m]);
    assert ApplyWait(g, c, m).threads == Sleep(Release(g, m), c, m).threads;
  }

  lemma WaitKeeps(g: Kernel, c: int, m: int)
    requires Inv(g) && Ready0(g) && m in g.mutexes && m in Me(g).holds && c in g.conds && g.s.running != IDLE
    ensures CanSwitch(Release(g, m).s)
    ensures ApplyWait(g, c, m) == Sleep(Release(g, m), c, m)
    ensures Inv(ApplyWait(g, c, m)) && NestIs(ApplyWait(g, c, m), 0)
  {
    WaitReady(g, m);
    WaitShape(g, c, m);
    UnlockKeeps(g, m);
    SleepKeeps(Release(g, m), c, m);
  }

  lemma NotifyKeeps(g: Kernel, c: int)
    requires Inv(g) && Acting(g) && c in g.conds
    ensures ApplyNotify(g, c) == if g.conds[c] == [] then g else Wake(g, c)
    ensures Inv(ApplyNotify(g, c)) && Acting(ApplyNotify(g, c))
  {
    CanRunNow(g);
    if g.conds[c] == [] {
      NotifyForm(g.s, g.conds[c]);
      assert g.conds[c := []] == g.conds;
    } else {
      var n := g.conds[c][0];
      assert CondOk(g, c) && n in g.conds[c] && Asleep(g, n, c);
      assert ThreadOk(g, n) && ThreadOk(g, g.s.running);
      NotifyForm(g.s, g.conds[c]);
      WakeKeeps(g, c);
    }
  }

  lemma YieldKeeps(g: Kernel)
    requires Inv(g) && Ready0(g) && Me(g).pos.User?
    ensures g.s.ready != [] ==> CanSwitch(g.s)
    ensures ApplySwitch(g, READY, YieldTail) == if g.s.ready == [] then g else YieldOut(g, false)
    ensures Inv(ApplySwitch(g, READY, YieldTail)) && NestIs(ApplySwitch(g, READY, YieldTail), 0)
  {
    CanRunNow(g);
    if g.s.ready == [] {
      Bracket(g.s);
      assert g.threads[g.s.running := Me(g)] == g.threads;
    } else {
      NextIsOther(g);
      SwitchForm(g.s, READY);
      YieldOutKeeps(g, false);
    }
  }

  lemma ExitKeeps(g: Kernel)
    requires Inv(g) && Ready0(g) && Me(g).pos.User? && g.s.running != IDLE
    ensures CanSwitch(g.s) && ApplySwitch(g, FINISHED, Gone) == ExitOut(g)
    ensures Inv(ExitOut(g)) && NestIs(ExitOut(g), 0)
  {
    CanRunNow(g);
    ReadyNeverEmpty(g);
    SwitchForm(g.s, FINISHED);
    ExitOutKeeps(g);
  }

  lemma CreateKeeps(g: Kernel)
    requires Inv(g) && Ready0(g)
    ensures ApplyCreate(g) == Spawn(NewCond(NewMutex(g)))
    ensures Inv(ApplyCreate(g)) && NestIs(ApplyCreate(g), 0)
  {
    CanRunNow(g);
    NewMutexKeeps(g);
    var g1 := NewCond(NewMutex(g));
    NewCondKeeps(NewMutex(g));
    assert g.s.running in g.threads;
    CreateForm(g1.s, g1.mutexSeq, g1.condSeq);
    SpawnKeeps(g1);
  }

  lemma ResumeKeeps(g: Kernel)
    requires Inv(g) && g.resuming && g.s.running in g.threads && NestIs(g, 0)
    ensures ApplyResume(g) == SwitchIn(g)
    ensures Inv(ApplyResume(g)) && NestIs(ApplyResume(g), 0)
  {
    assert ThreadOk(g, g.s.running);
    assert ApplyResume(g).s.tcbs == SwitchIn(g).s.tcbs;
    SwitchInKeeps(g);
  }

  // ---- the timer interrupt ----------------------------------------------------

  /** notifyAll as repeated notifyOne. */
  function WakeAll(g: Kernel, c: int): Kernel
    requires c in g.conds
    decreases |g.conds[c]|
  {
    if g.conds[c] == [] then g else WakeAll(ApplyNotify(g, c), c)
  }

  lemma {:induction false} WakeAllForm(g: Kernel, c: int)
    requires c in g.conds
    ensures WakeAll(g, c) == g.(s := NotifyAll(g.s, g.conds[c]), conds := g.conds[c := []])
    decreases |g.conds[c]|
  {
    if g.conds[c] == [] {
      assert g.conds[c := []] == g.conds;
    } else {
      var g1 := ApplyNotify(g, c);
      WakeAllForm(g1, c);
      assert g1.conds[c := []] == g.conds[c := []];
    }
  }

  lemma {:induction false} WakeAllKeeps(g: Kernel, c: int)
    requires Inv(g) && Acting(g) && c in g.conds
    ensures var g' := WakeAll(g, c);
      && Inv(g') && Acting(g') && g'.s.nest == g.s.nest && g'.s.running == g.s.running
      && g'.threads == g.threads && g'.mutexes == g.mutexes && !g'.s.halted
    decreases |g.conds[c]|
  {
    NotifyKeeps(g, c);
    if g.conds[c] != [] { WakeAllKeeps(ApplyNotify(g, c), c); }
  }

  lemma MakeSleepTimerKeeps(g: Kernel)
    requires Inv(g)
    ensures var g' := MakeSleepTimer(g);
      && Inv(g') && g'.sleepCond in g'.conds
      && g'.s == g.s && g'.threads == g.threads && g'.resuming == g.resuming
      && forall m :: m in g.mutexes ==> m in g'.mutexes && g'.mutexes[m] == g.mutexes[m]
  {
    if g.sleepCond !in g.conds {
      NewMutexKeeps(g);
      NewCondKeeps(NewMutex(g));
      CountersFree(NewCond(NewMutex(g)), MakeSleepTimer(g));
    }
  }

  lemma UpdateTickForm(g: Kernel)
    requires MakeSleepTimer(g).sleepCond in MakeSleepTimer(g).conds
    ensures var g1 := MakeSleepTimer(g);
      UpdateTick(g) == WakeAll(g1.(systick := g1.systick + 1), g1.sleepCond)
  {
    var g1 := MakeSleepTimer(g);
    WakeAllForm(g1.(systick := g1.systick + 1), g1.sleepCond);
  }

  lemma UpdateTickKeeps(g: Kernel)
    requires Inv(g) && Acting(g)
    ensures var g' := UpdateTick(g);
      && Inv(g') && Acting(g') && g'.s.nest == g.s.nest && g'.s.running == g.s.running && g'.threads == g.threads
      && forall m :: m in g.mutexes ==> m in g'.mutexes && g'.mutexes[m] == g.mutexes[m]
  {
    MakeSleepTimerKeeps(g);
    var g1 := MakeSleepTimer(g);
    var g2 := g1.(systick := g1.systick + 1);
    CountersFree(g1, g2);
    UpdateTickForm(g);
    WakeAllKeeps(g2, g2.sleepCond);
  }

  lemma YieldInHandlerKeeps(g: Kernel)
    requires Inv(g) && Acting(g) && g.s.nest == 1
    ensures g.s.ready != [] ==> CanSwitch(g.s)
    ensures YieldInHandler(g) == if g.s.ready == [] then g.(s := g.s.(nest := 0)) else YieldOut(g, true)
    ensures Inv(YieldInHandler(g)) && NestIs(YieldInHandler(g), 0)
  {
    CanRunNow(g);
    if g.s.ready == [] {
      CountersFree(g, YieldInHandler(g));
    } else {
      NextIsOther(g);
      InterruptForm(g.s);
      YieldOutKeeps(g, true);
    }
  }

  /** The handler after the tick, before it may switch. */
  function Ticked(g: Kernel, tick: bool): Kernel {
    var g1 := g.(s := g.s.(nest := g.s.nest + 1));
    if tick then UpdateTick(g1) else g1
  }

  lemma TickedKeeps(g: Kernel, tick: bool)
    requires Inv(g) && Ready0(g)
    ensures var g' := Ticked(g, tick);
      && Inv(g') && Acting(g') && g'.s.nest == 1 && g'.s.running == g.s.running && g'.threads == g.threads
      && forall m :: m in g.mutexes ==> m in g'.mutexes && g'.mutexes[m] == g.mutexes[m]
  {
    var g1 := g.(s := g.s.(nest := 1));
    CountersFree(g, g1);
    UpdateTickKeeps(g1);
  }

  lemma InterruptKeeps(g: Kernel, tick: bool)
    requires Inv(g) && Ready0(g)
    ensures var g' := Ticked(g, tick);
      g'.s.running in g'.threads && ApplyInterrupt(g, tick) == YieldInHandler(g')
    ensures Inv(ApplyInterrupt(g, tick)) && NestIs(ApplyInterrupt(g, tick), 0)
  {
    TickedKeeps(g, tick);
    YieldInHandlerKeeps(Ticked(g, tick));
  }

  // ---- runs -------------------------------------------------------------------

  lemma StepKeeps(g: Kernel, step: Step)
    requires Inv(g) && NestIs(g, 0) && Enabled(g, step)
    ensures Inv(Apply(g, step)) && NestIs(Apply(g, step), 0)
  {
    match step
    case Resume => ResumeKeeps(g);
    case LockStep(m) => LockKeeps(g, m);
    case TryLockStep(m) => TryLockKeeps(g, m);
    case UnlockStep(m) => UnlockKeeps(g, m);
    case WaitStep(c, m) => WaitKeeps(g, c, m);
    case RelockStep => LockKeeps(g, Me(g).pos.m);
    case NotifyStep(c) => NotifyKeeps(g, c);
    case YieldStep => YieldKeeps(g);
    case ExitStep => ExitKeeps(g);
    case CreateStep => CreateKeeps(g);
    case ReclaimStep => ReclaimKeeps(g);
    case NewMutexStep => NewMutexKeeps(g);
    case NewCondStep => NewCondKeeps(g);
    case JoinEntryStep(t) => JoinEntryKeeps(g, t);
    case InterruptStep(tick) => InterruptKeeps(g, tick);
  }

  /** The state main leaves: thread 1 (idle) about to start, thread 2 ready.  Block 0
      comes from setPreemption running before any thread exists. */
  function Booted(): Kernel {
    Kernel(
      Sched(1, 2, [2], [], map[0 := DEFAULT_TCB, 1 := Tcb(RUNNING, 1, 1, 1), 2 := Tcb(READY, 1, 2, 2)], 1, false),
      map[1 := FRESH_MUTEX, 2 := FRESH_MUTEX], 2, map[1 := [], 2 := []], 2,
      map[1 := Thread(Fresh, false, {}), 2 := Thread(Fresh, false, {})], true, NO_OWNER, 0)
  }

  /** After create for the idle thread. */
  function IdleCreated(): Kernel {
    Kernel(
      Sched(0, 1, [1], [], map[0 := DEFAULT_TCB, 1 := Tcb(READY, 1, 1, 1)], 1, false),
      map[1 := FRESH_MUTEX], 1, map[1 := []], 1, map[1 := Thread(Fresh, false, {})], false, NO_OWNER, 0)
  }

  /** And for the cartridge thread. */
  function BothCreated(): Kernel {
    Booted().(s := Sched(0, 2, [1, 2], [], map[0 := DEFAULT_TCB, 1 := Tcb(READY, 1, 1, 1), 2 := Tcb(READY, 1, 2, 2)], 1, false),
              resuming := false)
  }

  lemma CreatesIdle()
    ensures ApplyCreate(Kernel(Sched(0, 0, [], [], map[], 1, false), map[], 0, map[], 0, map[], false, NO_OWNER, 0)) == IdleCreated()
  {
    assert CreateThread(Sched(0, 0, [], [], map[], 1, false), 1, 1) == IdleCreated().s;
  }

  lemma CreatesSecond()
    ensures ApplyCreate(IdleCreated()) == BothCreated()
  {
    assert CreateThread(IdleCreated().s, 2, 2) == BothCreated().s;
  }

  lemma Launches()
    ensures LaunchFirstTask(BothCreated().s) == SwitchResult(Booted().s, true)
  {
  }

  lemma BootForm()
    ensures Boot() == Booted()
  {
    CreatesIdle();
    CreatesSecond();
    Launches();
  }

  lemma BootBase()
    ensures Base(Booted())
  {
  }

  lemma BootThreads(t: int)
    requires t in Booted().threads
    ensures ThreadOk(Booted(), t)
  {
  }

  lemma BootObjects(k: int)
    ensures k in Booted().mutexes ==> MutexOk(Booted(), k)
    ensures k in Booted().conds ==> CondOk(Booted(), k)
  {
  }

  lemma BootedInv(g: Kernel)
    requires g == Booted()
    ensures Inv(g)
  {
    BootBase();
    forall t | t in g.threads ensures ThreadOk(g, t) { BootThreads(t); }
    forall k | k in g.mutexes ensures MutexOk(g, k) { BootObjects(k); }
    forall k | k in g.conds ensures CondOk(g, k) { BootObjects(k); }
  }

  lemma BootInv()
    ensures Inv(Boot()) && NestIs(Boot(), 0)
  {
    BootForm();
    BootedInv(Boot());
  }

  /** Every state of every run satisfies the invariant. */
  lemma {:induction false} RunInv(gs: seq<Kernel>, steps: seq<Step>, i: nat)
    requires IsRun(gs, steps) && i < |gs|
    ensures Inv(gs[i]) && NestIs(gs[i], 0)
  {
    if i == 0 {
      BootInv();
    } else {
      RunInv(gs, steps, i - 1);
      assert StateOf(gs, steps, i);
      StepKeeps(gs[i - 1], steps[i - 1]);
    }
  }
}
