/** What one step does to positions, holdings and waiting lists: all that a program built
    from kernel calls needs to know about the kernel.

    A step moves nobody but the thread that takes it, and no object goes away.  Where it moves
    that thread depends on the step alone: into a lock or out of it with one more mutex in its
    hands, into a wait with one less, or nowhere.  A waiting list grows by a wait at its end and
    shrinks by a notification at its front, or is emptied by a timer interrupt.  There is one
    lemma for each kind of step, and StepFacts puts them together. */
module KernelFacts {
  import opened SchedulerSpec
  import opened Kernel
  import opened KernelInvariant
  import opened KernelSteps
  import opened KernelRuns
  import opened KernelTheorems

  predicate Same(th: Thread, th': Thread) { th'.pos == th.pos && th'.holds == th.holds }

  predicate LockedOrBlocked(th: Thread, th': Thread, m: int) {
    || (th'.pos == User && th'.holds == th.holds + {m})
    || (th'.pos == LockTail(m) && th'.holds == th.holds)
  }

  /** Only the running thread moves, and created objects stay. */
  ghost predicate Framed(g: Kernel, g': Kernel) {
    && g.threads.Keys <= g'.threads.Keys && g.mutexes.Keys <= g'.mutexes.Keys && g.conds.Keys <= g'.conds.Keys
    && g.s.running in g'.threads
    && forall t :: t in g.threads && t != g.s.running ==> Same(g.threads[t], g'.threads[t])
  }

  /** What the step makes of the thread that takes it. */
  predicate Moved(step: Step, th: Thread, th': Thread) {
    match step
    case Resume => th' == Landed(th) && (th.preempted <==> th.pos.User? || th.pos.Relock?)
    case LockStep(m) => LockedOrBlocked(th, th', m)
    case RelockStep => th.pos.Relock? && LockedOrBlocked(th, th', th.pos.m)
    case UnlockStep(m) => th'.pos == th.pos && th'.holds == th.holds - {m}
    case WaitStep(c, m) => th'.pos == WaitTail(c, m) && th'.holds == th.holds - {m}
    case NotifyStep(_) => Same(th, th')
    case InterruptStep(_) => Same(th, th')
    case _ => true
  }

  /** A condition's waiting list grows only by wait and shrinks only from the front. */
  predicate CondMoved(step: Step, r: int, q: seq<int>, q': seq<int>, c: int) {
    match step
    case WaitStep(k, _) => q' == if k == c then q + [r] else q
    case NotifyStep(k) => q' == if k == c && q != [] then q[1..] else q
    case InterruptStep(_) => q' == q || q' == []
    case _ => q' == q
  }

  ghost predicate Facts(g: Kernel, step: Step, g': Kernel) {
    && g.s.running in g.threads
    && Framed(g, g')
    && Moved(step, g.threads[g.s.running], g'.threads[g.s.running])
    && forall c :: c in g.conds ==> CondMoved(step, g.s.running, g.conds[c], g'.conds[c], c)
  }

  lemma LockFacts(g: Kernel, m: int)
    requires Inv(g) && Ready0(g) && m in g.mutexes && g.s.running != IDLE
    ensures var g' := ApplyLock(g, m);
      Framed(g, g') && g'.conds == g.conds && LockedOrBlocked(Me(g), g'.threads[g.s.running], m)
  {
    LockKeeps(g, m);
  }

  lemma UnlockFacts(g: Kernel, m: int)
    requires Inv(g) && Ready0(g) && m in g.mutexes && m in Me(g).holds && Me(g).pos.User?
    ensures Facts(g, UnlockStep(m), ApplyUnlock(g, m))
  {
    UnlockKeeps(g, m);
  }

  /** A step that changes one thread, one mutex or two, and one condition. */
  lemma LocalFacts(g: Kernel, step: Step, g': Kernel)
    requires g.s.running in g.threads && g'.threads.Keys == g.threads.Keys
    requires g'.mutexes.Keys == g.mutexes.Keys && g'.conds.Keys == g.conds.Keys
    requires forall t :: t in g.threads && t != g.s.running ==> g'.threads[t] == g.threads[t]
    requires Moved(step, g.threads[g.s.running], g'.threads[g.s.running])
    requires forall c :: c in g.conds ==> CondMoved(step, g.s.running, g.conds[c], g'.conds[c], c)
    ensures Facts(g, step, g')
  {
  }

  /** Falling asleep after the release, without the invariant. */
  lemma SleepFacts(g: Kernel, g1: Kernel, c: int, m: int)
    requires g.s.running in g.threads && c in g.conds && m in g.mutexes && CanSwitch(g1.s)
    requires g1.s.running == g.s.running && g1.threads.Keys == g.threads.Keys && g1.mutexes.Keys == g.mutexes.Keys && g1.conds == g.conds
    requires forall t :: t in g.threads && t != g.s.running ==> g1.threads[t] == g.threads[t]
    requires g1.threads[g.s.running].holds == g.threads[g.s.running].holds - {m}
    ensures Facts(g, WaitStep(c, m), Sleep(g1, c, m))
  {
    LocalFacts(g, WaitStep(c, m), Sleep(g1, c, m));
  }

  lemma ReleaseFacts(g: Kernel, m: int)
    requires Inv(g) && Ready0(g) && m in g.mutexes && m in Me(g).holds
    ensures var g1 := Release(g, m);
      && g1.s.running == g.s.running && g1.threads.Keys == g.threads.Keys && g1.mutexes.Keys == g.mutexes.Keys && g1.conds == g.conds
      && (forall t :: t in g.threads && t != g.s.running ==> g1.threads[t] == g.threads[t])
      && g1.threads[g.s.running].holds == g.threads[g.s.running].holds - {m}
  {
  }

  lemma WaitFacts(g: Kernel, c: int, m: int)
    requires Inv(g) && Ready0(g) && m in g.mutexes && m in Me(g).holds && c in g.conds && g.s.running != IDLE
    ensures Facts(g, WaitStep(c, m), ApplyWait(g, c, m))
  {
    WaitKeeps(g, c, m);
    ReleaseFacts(g, m);
    SleepFacts(g, Release(g, m), c, m);
  }

  lemma NotifyFacts(g: Kernel, c: int)
    requires Inv(g) && Ready0(g) && c in g.conds
    ensures Facts(g, NotifyStep(c), ApplyNotify(g, c))
  {
    NotifyKeeps(g, c);
  }

  ghost predicate CondsKeptOrEmptied(g: Kernel, g': Kernel) {
    forall c :: c in g.conds ==> c in g'.conds && (g'.conds[c] == g.conds[c] || g'.conds[c] == [])
  }

  lemma TickConds(g: Kernel, tick: bool)
    requires Inv(g) && Ready0(g)
    ensures CondsKeptOrEmptied(g, Ticked(g, tick))
  {
    if tick {
      var g1 := g.(s := g.s.(nest := g.s.nest + 1));
      CountersFree(g, g1);
      MakeSleepTimerKeeps(g1);
    }
  }

  lemma HandlerConds(g: Kernel)
    requires Inv(g) && Acting(g) && g.s.nest == 1
    ensures YieldInHandler(g).conds == g.conds
  {
    YieldInHandlerKeeps(g);
  }

  lemma InterruptConds(g: Kernel, tick: bool)
    requires Inv(g) && Ready0(g)
    ensures CondsKeptOrEmptied(g, ApplyInterrupt(g, tick))
  {
    TickedKeeps(g, tick);
    TickConds(g, tick);
    HandlerConds(Ticked(g, tick));
    InterruptKeeps(g, tick);
  }

  lemma InterruptFacts(g: Kernel, g': Kernel, tick: bool)
    requires g.s.running in g.threads && g'.threads.Keys == g.threads.Keys && g.mutexes.Keys <= g'.mutexes.Keys
    requires forall t :: t in g.threads ==> Same(g.threads[t], g'.threads[t])
    requires CondsKeptOrEmptied(g, g')
    ensures Facts(g, InterruptStep(tick), g')
  {
    forall c | c in g.conds.Keys ensures c in g'.conds.Keys { assert c in g.conds; }
  }

  lemma YieldFacts(g: Kernel)
    requires Inv(g) && Ready0(g) && Me(g).pos.User?
    ensures Facts(g, YieldStep, ApplySwitch(g, READY, YieldTail))
  {
    YieldKeeps(g);
  }

  lemma ExitFacts(g: Kernel)
    requires Inv(g) && Ready0(g) && Me(g).pos.User? && g.s.running != IDLE
    ensures Facts(g, ExitStep, ApplySwitch(g, FINISHED, Gone))
  {
    ExitKeeps(g);
  }

  lemma CreateFacts(g: Kernel)
    requires Inv(g) && Ready0(g)
    ensures Facts(g, CreateStep, ApplyCreate(g))
  {
    CreateKeeps(g);
    assert g.s.counter + 1 !in g.threads && g.condSeq + 1 !in g.conds;
  }

  lemma NewFacts(g: Kernel)
    requires Inv(g)
    ensures Facts(g, NewMutexStep, NewMutex(g)) && Facts(g, NewCondStep, NewCond(g))
    ensures Facts(g, ReclaimStep, g.(s := Reclaim(g.s)))
  {
    assert g.condSeq + 1 !in g.conds;
  }

  lemma JoinEntryFacts(g: Kernel, t: int)
    requires g.s.running in g.threads
    ensures Facts(g, JoinEntryStep(t), g.(s := JoinEntry(g.s, t)))
  {
  }

  lemma ResumeFacts(g: Kernel)
    requires Inv(g) && g.resuming && g.s.running in g.threads && NestIs(g, 0)
    ensures Facts(g, Resume, ApplyResume(g))
  {
    assert ThreadOk(g, g.s.running);
    ResumeKeeps(g);
  }

  lemma TryLockFacts(g: Kernel, m: int)
    requires Inv(g) && Ready0(g) && m in g.mutexes && Me(g).pos.User?
    ensures Facts(g, TryLockStep(m), ApplyTryLock(g, m))
  {
    TryLockKeeps(g, m);
  }

  lemma SyncFacts(g: Kernel, step: Step)
    requires Inv(g) && NestIs(g, 0) && Enabled(g, step) && Synchronises(step)
    ensures Facts(g, step, Apply(g, step))
  {
    match step
    case LockStep(m) => LockFacts(g, m);
    case RelockStep => LockFacts(g, Me(g).pos.m);
    case UnlockStep(m) => UnlockFacts(g, m);
    case WaitStep(c, m) => WaitFacts(g, c, m);
    case NotifyStep(c) => NotifyFacts(g, c);
    case TryLockStep(m) => TryLockFacts(g, m);
  }

  lemma InterruptStepFacts(g: Kernel, tick: bool)
    requires Inv(g) && Ready0(g)
    ensures Facts(g, InterruptStep(tick), ApplyInterrupt(g, tick))
  {
    InterruptMoves(g, tick);
    InterruptConds(g, tick);
    InterruptFacts(g, ApplyInterrupt(g, tick), tick);
  }

  lemma StepFacts(g: Kernel, step: Step)
    requires Inv(g) && NestIs(g, 0) && Enabled(g, step)
    ensures Facts(g, step, Apply(g, step))
  {
    if Synchronises(step) {
      SyncFacts(g, step);
    } else {
      match step
      case YieldStep => YieldFacts(g);
      case ExitStep => ExitFacts(g);
      case InterruptStep(tick) => InterruptStepFacts(g, tick);
      case Resume => ResumeFacts(g);
      case CreateStep => CreateFacts(g);
      case JoinEntryStep(t) => JoinEntryFacts(g, t);
      case _ => NewFacts(g);
    }
  }
}
