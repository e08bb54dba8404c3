/** What the invariant means for every run of the kernel. */
module KernelTheorems {
  import opened SchedulerSpec
  import opened Kernel
  import opened KernelInvariant
  import opened KernelSteps
  import opened KernelRuns
  import opened KernelQueues

  // ---- mutual exclusion -------------------------------------------------------

  /** At most one thread is between lock returning and its unlock, and it is the owner. */
  lemma MutualExclusion(gs: seq<Kernel>, steps: seq<Step>, i: nat, m: int, t: int, u: int)
    requires IsRun(gs, steps) && i < |gs|
    requires t in gs[i].threads && m in gs[i].threads[t].holds
    ensures m in gs[i].mutexes && gs[i].mutexes[m].owner == t
    ensures u in gs[i].threads && m in gs[i].threads[u].holds ==> u == t
  {
    RunInv(gs, steps, i);
    assert ThreadOk(gs[i], t);
    if u in gs[i].threads { assert ThreadOk(gs[i], u); }
  }

  /** lock, and the lock inside wait, either returns to a caller that owns the mutex, or has
      suspended the caller: never a return without the mutex. */
  lemma LockReturnsOnlyToOwner(gs: seq<Kernel>, steps: seq<Step>, i: nat, m: int)
    requires IsRun(gs, steps) && i < |steps| && StateOf(gs, steps, i + 1)
    requires steps[i] == LockStep(m) || (steps[i] == RelockStep && Me(gs[i]).pos.m == m)
    ensures var r := gs[i].s.running;
      r in gs[i + 1].threads && m in gs[i + 1].mutexes &&
      if gs[i + 1].s.running == r
      then gs[i + 1].mutexes[m].owner == r && m in gs[i + 1].threads[r].holds && !gs[i + 1].resuming
      else r in gs[i + 1].mutexes[m].waiting && BlockedOn(gs[i + 1], r, m) && gs[i + 1].resuming
  {
    RunInv(gs, steps, i);
    RunInv(gs, steps, i + 1);
    LockKeeps(gs[i], m);
  }

  /** A thread that comes back from being suspended in lock owns the mutex. */
  lemma SuspendedLockReturnsToOwner(gs: seq<Kernel>, steps: seq<Step>, i: nat, m: int)
    requires IsRun(gs, steps) && i < |steps| && StateOf(gs, steps, i + 1)
    requires steps[i] == Resume && Me(gs[i]).pos == LockTail(m)
    ensures var r := gs[i].s.running;
      gs[i + 1].s.running == r && r in gs[i + 1].threads && gs[i + 1].threads[r].pos == User
      && m in gs[i + 1].mutexes && gs[i + 1].mutexes[m].owner == r
  {
    RunInv(gs, steps, i);
    RunInv(gs, steps, i + 1);
    var r := gs[i].s.running;
    assert ThreadOk(gs[i], r);
    ResumeKeeps(gs[i]);
    assert ThreadOk(gs[i + 1], r);
  }

  // ---- one place for every thread ---------------------------------------------

  datatype Place = OnCpu | InReady | InMutex(m: int) | InCond(c: int) | InFinished | Reclaimed

  predicate At(g: Kernel, t: int, p: Place) {
    match p
    case OnCpu => g.s.running == t
    case InReady => t in g.s.ready
    case InMutex(m) => m in g.mutexes && t in g.mutexes[m].waiting
    case InCond(c) => c in g.conds && t in g.conds[c]
    case InFinished => t in g.s.finished
    case Reclaimed => t !in g.s.tcbs
  }

  function StateAt(p: Place): ThreadState {
    match p
    case OnCpu => RUNNING
    case InReady => READY
    case InMutex(_) => WAITING
    case InCond(_) => WAITING
    case InFinished => FINISHED
    case Reclaimed => FINISHED
  }

  function PlaceOf(g: Kernel, t: int): Place
    requires t in g.threads
  {
    if t !in g.s.tcbs then Reclaimed
    else match g.s.tcbs[t].state
      case RUNNING => OnCpu
      case READY => InReady
      case WAITING => (match g.threads[t].pos case LockTail(m) => InMutex(m) case WaitTail(c, m) => InCond(c) case _ => OnCpu)
      case _ => InFinished
  }

  /** Every created thread is in exactly one place, which its block's state names, and no
      list holds it twice. */
  ghost predicate InOnePlace(g: Kernel, t: int)
    requires t in g.threads
  {
    && (forall p :: At(g, t, p) <==> p == PlaceOf(g, t))
    && GetThreadState(g.s, t) == StateAt(PlaceOf(g, t))
    && NoDup(g.s.ready) && NoDup(g.s.finished)
    && (forall m :: m in g.mutexes ==> NoDup(g.mutexes[m].waiting))
    && (forall c :: c in g.conds ==> NoDup(g.conds[c]))
  }

  lemma OnePlace(g: Kernel, t: int)
    requires Inv(g) && t in g.threads
    ensures InOnePlace(g, t)
  {
    assert ThreadOk(g, t);
    forall p ensures At(g, t, p) <==> p == PlaceOf(g, t) {
      match p
      case InMutex(m) => if m in g.mutexes { assert MutexOk(g, m); }
      case InCond(c) => if c in g.conds { assert CondOk(g, c); }
      case _ =>
    }
    forall m | m in g.mutexes ensures NoDup(g.mutexes[m].waiting) { assert MutexOk(g, m); }
    forall c | c in g.conds ensures NoDup(g.conds[c]) { assert CondOk(g, c); }
  }

  lemma Conservation(gs: seq<Kernel>, steps: seq<Step>, i: nat, t: int)
    requires IsRun(gs, steps) && i < |gs| && t in gs[i].threads
    ensures InOnePlace(gs[i], t)
  {
    RunInv(gs, steps, i);
    OnePlace(gs[i], t);
  }

  lemma PlacesAreReal(g: Kernel, t: int, p: Place)
    requires Inv(g) && At(g, t, p) && p != Reclaimed
    ensures 1 <= t <= g.s.counter && t in g.threads
  {
    match p
    case InMutex(m) => assert MutexOk(g, m) && BlockedOn(g, t, m);
    case InCond(c) => assert CondOk(g, c) && Asleep(g, t, c);
    case _ =>
  }

  /** The ids in the lists are all ids of created threads: nothing is invented either. */
  lemma NothingInvented(gs: seq<Kernel>, steps: seq<Step>, i: nat, t: int, p: Place)
    requires IsRun(gs, steps) && i < |gs| && At(gs[i], t, p) && p != Reclaimed
    ensures 1 <= t <= gs[i].s.counter && t in gs[i].threads
  {
    RunInv(gs, steps, i);
    PlacesAreReal(gs[i], t, p);
  }

  lemma BusyMeansReady(gs: seq<Kernel>, steps: seq<Step>, i: nat)
    requires IsRun(gs, steps) && i < |gs| && gs[i].s.running != IDLE
    ensures IDLE in gs[i].s.ready
  {
    RunInv(gs, steps, i);
    ReadyNeverEmpty(gs[i]);
  }

  // ---- counters ---------------------------------------------------------------

  /** No assert of the scheduler has failed, and the thread's preemption counter is one minus
      the brackets it has open, however many switches ago it opened them. */
  predicate Balanced(g: Kernel, t: int)
    requires t in g.threads && t in g.s.tcbs
  {
    && !g.s.halted
    && g.s.tcbs[t].preemptionOn == 1 - OpenBrackets(g, t)
    && (Executing(g, t) ==> AllowPreemption(g.s))
  }

  lemma BalancedAt(g: Kernel, t: int)
    requires Inv(g) && t in g.threads && t in g.s.tcbs
    ensures Balanced(g, t)
  {
    assert ThreadOk(g, t);
  }

  lemma PreemptionBalance(gs: seq<Kernel>, steps: seq<Step>, i: nat, t: int)
    requires IsRun(gs, steps) && i < |gs| && t in gs[i].threads && t in gs[i].s.tcbs
    ensures Balanced(gs[i], t)
  {
    RunInv(gs, steps, i);
    BalancedAt(gs[i], t);
  }

  /** nest_critical_cnt is one at every context switch and zero whenever a thread executes. */
  lemma NestBalance(gs: seq<Kernel>, steps: seq<Step>, i: nat)
    requires IsRun(gs, steps) && i < |gs|
    ensures gs[i].s.nest == if gs[i].resuming then 1 else 0
  {
    RunInv(gs, steps, i);
  }

  // ---- finished threads -------------------------------------------------------

  predicate HasExited(g: Kernel, t: int) { t in g.threads && g.threads[t].pos.Gone? }

  lemma HandlerMoves(g: Kernel)
    requires Inv(g) && Acting(g) && g.s.nest == 1
    ensures var g' := YieldInHandler(g);
      && g'.mutexes == g.mutexes && g'.threads.Keys == g.threads.Keys
      && forall t :: t in g.threads ==> g'.threads[t].pos == g.threads[t].pos && g'.threads[t].holds == g.threads[t].holds
  {
    YieldInHandlerKeeps(g);
  }

  /** What a timer interrupt leaves alone: everybody's position and holdings, and every mutex. */
  lemma InterruptMoves(g: Kernel, tick: bool)
    requires Inv(g) && Ready0(g)
    ensures var g' := ApplyInterrupt(g, tick);
      && g'.threads.Keys == g.threads.Keys
      && (forall t :: t in g.threads ==> g'.threads[t].pos == g.threads[t].pos && g'.threads[t].holds == g.threads[t].holds)
      && (forall m :: m in g.mutexes ==> m in g'.mutexes && g'.mutexes[m] == g.mutexes[m])
  {
    TickedKeeps(g, tick);
    HandlerMoves(Ticked(g, tick));
    InterruptKeeps(g, tick);
  }

  lemma GoneStays(g: Kernel, step: Step, t: int)
    requires Inv(g) && NestIs(g, 0) && Enabled(g, step) && HasExited(g, t)
    ensures HasExited(Apply(g, step), t)
  {
    assert ThreadOk(g, t);
    if step.InterruptStep? { InterruptMoves(g, step.tick); }
  }

  lemma FinishedMeansExited(g: Kernel, t: int)
    requires Inv(g) && t in g.threads
    ensures GetThreadState(g.s, t) == FINISHED <==> HasExited(g, t)
  {
    assert ThreadOk(g, t);
  }

  ghost predicate KeepsExited(g: Kernel, g': Kernel) { forall t :: HasExited(g, t) ==> HasExited(g', t) }

  ghost predicate ExitsStay(gs: seq<Kernel>) {
    forall k :: 0 < k < |gs| ==> KeepsExited(gs[k - 1], gs[k])
  }

  lemma RunExits(gs: seq<Kernel>, steps: seq<Step>)
    requires IsRun(gs, steps)
    ensures ExitsStay(gs)
  {
    forall k | 0 < k < |gs| ensures KeepsExited(gs[k - 1], gs[k]) {
      RunInv(gs, steps, k - 1);
      assert StateOf(gs, steps, k);
      forall t | HasExited(gs[k - 1], t) ensures HasExited(gs[k], t) { GoneStays(gs[k - 1], steps[k - 1], t); }
    }
  }

  lemma {:induction false} ExitedStays(gs: seq<Kernel>, i: nat, j: nat, t: int)
    requires ExitsStay(gs) && i <= j < |gs| && HasExited(gs[i], t)
    ensures HasExited(gs[j], t)
  {
    if i < j {
      ExitedStays(gs, i, j - 1, t);
      assert KeepsExited(gs[j - 1], gs[j]);
    }
  }

  /** Once a thread has exited it never runs, becomes ready or waits again, and its state
      reads FINISHED for ever. */
  lemma FinishedIsFinal(gs: seq<Kernel>, steps: seq<Step>, i: nat, j: nat, t: int)
    requires IsRun(gs, steps) && i <= j < |gs|
    requires t in gs[i].threads && GetThreadState(gs[i].s, t) == FINISHED
    ensures t in gs[j].threads && GetThreadState(gs[j].s, t) == FINISHED
    ensures forall p :: At(gs[j], t, p) ==> p == InFinished || p == Reclaimed
  {
    RunInv(gs, steps, i);
    FinishedMeansExited(gs[i], t);
    RunExits(gs, steps);
    ExitedStays(gs, i, j, t);
    RunInv(gs, steps, j);
    FinishedMeansExited(gs[j], t);
    OnePlace(gs[j], t);
  }

  /** Reclaiming finished blocks changes no thread's visible state. */
  lemma ReclaimInvisible(g: Kernel, t: int)
    requires Inv(g)
    ensures GetThreadState(Reclaim(g.s), t) == GetThreadState(g.s, t)
    ensures t in g.threads ==> (t in Reclaim(g.s).tcbs <==> GetThreadState(g.s, t) != FINISHED)
  {
    if t in g.threads { assert ThreadOk(g, t); }
  }

  /** join reads the target's block through operator[], which puts a fresh block back for a
      reclaimed thread.  It leaves every visible state alone exactly when the target has a
      block or was never created. */
  lemma JoinEntryHarmless(s: Sched, tid: int)
    ensures (forall t :: GetThreadState(JoinEntry(s, tid), t) == GetThreadState(s, t))
        <==> (tid in s.tcbs || tid < 0 || tid > s.counter)
  {
    if tid !in s.tcbs && 0 <= tid <= s.counter {
      assert GetThreadState(s, tid) == FINISHED && GetThreadState(JoinEntry(s, tid), tid) == INIT;
    }
  }

  // ---- bounded waiting in the ready list --------------------------------------

  ghost predicate Moves(g: Kernel, g': Kernel) { exists tail :: Queued(g, g', tail) }

  ghost predicate QueuedRun(gs: seq<Kernel>) {
    forall k :: 0 < k < |gs| ==> Moves(gs[k - 1], gs[k])
  }

  lemma RunQueues(gs: seq<Kernel>, steps: seq<Step>)
    requires IsRun(gs, steps)
    ensures QueuedRun(gs)
  {
    forall k | 0 < k < |gs| ensures Moves(gs[k - 1], gs[k]) {
      RunInv(gs, steps, k - 1);
      assert StateOf(gs, steps, k);
      var tail := StepQueues(gs[k - 1], steps[k - 1]);
    }
  }

  /** The number of context switches between states i and j of a run. */
  function Switches(gs: seq<Kernel>, i: nat, j: nat): nat
    requires i <= j < |gs|
  {
    if i == j then 0 else Switches(gs, i, j - 1) + if IsSwitch(gs[j - 1], gs[j]) then 1 else 0
  }

  /** Round robin is fair: the thread at position p of the ready list moves up one place at
      every switch, and runs at the (p+1)-th. */
  lemma RoundRobin(gs: seq<Kernel>, steps: seq<Step>, i: nat, j: nat, p: nat)
    requires IsRun(gs, steps) && i <= j < |gs| && p < |gs[i].s.ready|
    ensures Switches(gs, i, j) <= p ==>
      p - Switches(gs, i, j) < |gs[j].s.ready| && gs[j].s.ready[p - Switches(gs, i, j)] == gs[i].s.ready[p]
    ensures i < j && Switches(gs, i, j) == p + 1 && Switches(gs, i, j - 1) == p ==> gs[j].s.running == gs[i].s.ready[p]
  {
    RunQueues(gs, steps);
    MovesUp(gs, i, j, p);
  }

  lemma {:induction false} MovesUp(gs: seq<Kernel>, i: nat, j: nat, p: nat)
    requires QueuedRun(gs) && i <= j < |gs| && p < |gs[i].s.ready|
    ensures Switches(gs, i, j) <= p ==>
      p - Switches(gs, i, j) < |gs[j].s.ready| && gs[j].s.ready[p - Switches(gs, i, j)] == gs[i].s.ready[p]
    ensures i < j && Switches(gs, i, j) == p + 1 && Switches(gs, i, j - 1) == p ==> gs[j].s.running == gs[i].s.ready[p]
  {
    if i < j {
      MovesUp(gs, i, j - 1, p);
      assert Moves(gs[j - 1], gs[j]);
      var tail :| Queued(gs[j - 1], gs[j], tail);
    }
  }

  // ---- bounded waiting in a mutex ---------------------------------------------

  /** The steps that give up mutex m. */
  predicate GivesUp(step: Step, m: int) { step == UnlockStep(m) || (step.WaitStep? && step.m == m) }

  function Releases(steps: seq<Step>, i: nat, j: nat, m: int): nat
    requires i <= j <= |steps|
  {
    if i == j then 0 else Releases(steps, i, j - 1, m) + if GivesUp(steps[j - 1], m) then 1 else 0
  }

  /** While a mutex is owned, a step that does not give it up keeps the owner and lets new
      waiters in only behind; one that does hands it to the first waiter. */
  predicate Passed(mx: Mutex, mx': Mutex, given: bool) {
    if given then mx' == (if mx.waiting == [] then FRESH_MUTEX else Mutex(mx.waiting[0], mx.waiting[1..]))
    else mx'.owner == mx.owner && mx.waiting <= mx'.waiting
  }

  lemma LockPasses(g: Kernel, k: int, m: int)
    requires Inv(g) && Ready0(g) && k in g.mutexes && g.s.running != IDLE && m in g.mutexes && g.mutexes[m].IsLocked()
    ensures m in ApplyLock(g, k).mutexes && Passed(g.mutexes[m], ApplyLock(g, k).mutexes[m], false)
  {
    LockKeeps(g, k);
  }

  lemma UnlockPasses(g: Kernel, k: int, m: int)
    requires Inv(g) && Ready0(g) && k in g.mutexes && k in Me(g).holds && m in g.mutexes
    ensures m in ApplyUnlock(g, k).mutexes && Passed(g.mutexes[m], ApplyUnlock(g, k).mutexes[m], k == m)
  {
    UnlockKeeps(g, k);
  }

  lemma WaitPasses(g: Kernel, c: int, k: int, m: int)
    requires Inv(g) && Ready0(g) && k in g.mutexes && k in Me(g).holds && c in g.conds && g.s.running != IDLE
    requires m in g.mutexes
    ensures m in ApplyWait(g, c, k).mutexes && Passed(g.mutexes[m], ApplyWait(g, c, k).mutexes[m], k == m)
  {
    WaitKeeps(g, c, k);
  }

  lemma CreatePasses(g: Kernel, m: int)
    requires Inv(g) && m in g.mutexes
    ensures m in NewMutex(g).mutexes && NewMutex(g).mutexes[m] == g.mutexes[m]
    ensures m in ApplyCreate(g).mutexes && ApplyCreate(g).mutexes[m] == g.mutexes[m]
  {
  }

  lemma SyncPasses(g: Kernel, step: Step, m: int)
    requires Inv(g) && NestIs(g, 0) && Enabled(g, step) && Synchronises(step) && m in g.mutexes && g.mutexes[m].IsLocked()
    ensures m in Apply(g, step).mutexes && Passed(g.mutexes[m], Apply(g, step).mutexes[m], GivesUp(step, m))
  {
    match step
    case LockStep(k) => LockPasses(g, k, m);
    case TryLockStep(k) => TryLockKeeps(g, k);
    case UnlockStep(k) => UnlockPasses(g, k, m);
    case WaitStep(c, k) => WaitPasses(g, c, k, m);
    case RelockStep => LockPasses(g, Me(g).pos.m, m);
    case NotifyStep(_) =>
  }

  lemma OwnedMutexStep(g: Kernel, step: Step, m: int)
    requires Inv(g) && NestIs(g, 0) && Enabled(g, step) && m in g.mutexes && g.mutexes[m].IsLocked()
    ensures m in Apply(g, step).mutexes && Passed(g.mutexes[m], Apply(g, step).mutexes[m], GivesUp(step, m))
  {
    if Synchronises(step) {
      SyncPasses(g, step, m);
    } else {
      match step
      case InterruptStep(tick) => InterruptMoves(g, tick);
      case CreateStep => CreatePasses(g, m);
      case NewMutexStep => CreatePasses(g, m);
      case _ =>
    }
  }

  ghost predicate PassingRun(gs: seq<Kernel>, steps: seq<Step>, m: int) {
    |gs| == |steps| + 1
    && forall k :: 0 < k < |gs| && m in gs[k - 1].mutexes && gs[k - 1].mutexes[m].IsLocked() ==>
      m in gs[k].mutexes && Passed(gs[k - 1].mutexes[m], gs[k].mutexes[m], GivesUp(steps[k - 1], m))
  }

  lemma RunPasses(gs: seq<Kernel>, steps: seq<Step>, m: int)
    requires IsRun(gs, steps)
    ensures PassingRun(gs, steps, m)
  {
    forall k | 0 < k < |gs| && m in gs[k - 1].mutexes && gs[k - 1].mutexes[m].IsLocked()
      ensures m in gs[k].mutexes && Passed(gs[k - 1].mutexes[m], gs[k].mutexes[m], GivesUp(steps[k - 1], m))
    {
      RunInv(gs, steps, k - 1);
      assert StateOf(gs, steps, k);
      OwnedMutexStep(gs[k - 1], steps[k - 1], m);
    }
  }

  /** First come, first served: after r releases the owner is the r-th of the threads that
      were waiting, and the others still wait in their order, ahead of everyone else. */
  lemma MutexFifo(gs: seq<Kernel>, steps: seq<Step>, i: nat, j: nat, m: int)
    requires IsRun(gs, steps) && i <= j < |gs| && m in gs[i].mutexes && gs[i].mutexes[m].waiting != []
    requires Releases(steps, i, j, m) <= |gs[i].mutexes[m].waiting|
    ensures var mx, r := gs[i].mutexes[m], Releases(steps, i, j, m);
      && m in gs[j].mutexes
      && mx.waiting[r..] <= gs[j].mutexes[m].waiting
      && gs[j].mutexes[m].owner == (if r == 0 then mx.owner else mx.waiting[r - 1])
  {
    RunPasses(gs, steps, m);
    RunInv(gs, steps, i);
    WaitersExist(gs[i], m);
    InOrder(gs, steps, i, j, m);
  }

  lemma {:induction false} InOrder(gs: seq<Kernel>, steps: seq<Step>, i: nat, j: nat, m: int)
    requires PassingRun(gs, steps, m) && i <= j < |gs| && m in gs[i].mutexes
    requires gs[i].mutexes[m].owner > 0 && forall t :: t in gs[i].mutexes[m].waiting ==> t > 0
    requires Releases(steps, i, j, m) <= |gs[i].mutexes[m].waiting|
    ensures var mx, r := gs[i].mutexes[m], Releases(steps, i, j, m);
      && m in gs[j].mutexes
      && mx.waiting[r..] <= gs[j].mutexes[m].waiting
      && gs[j].mutexes[m].owner == (if r == 0 then mx.owner else mx.waiting[r - 1])
  {
    if i < j {
      InOrder(gs, steps, i, j - 1, m);
      var r := Releases(steps, i, j - 1, m);
      var w := gs[i].mutexes[m].waiting;
      assert r > 0 ==> w[r - 1] in w;
      assert Passed(gs[j - 1].mutexes[m], gs[j].mutexes[m], GivesUp(steps[j - 1], m));
      if GivesUp(steps[j - 1], m) {
        assert w[r..][0] == w[r] && w[r..][1..] == w[r + 1..];
      }
    }
  }

  lemma WaitersExist(g: Kernel, m: int)
    requires Inv(g) && m in g.mutexes && g.mutexes[m].waiting != []
    ensures g.mutexes[m].owner > 0 && forall t :: t in g.mutexes[m].waiting ==> t > 0
  {
    assert MutexOk(g, m);
    forall t | t in g.mutexes[m].waiting ensures t > 0 { assert BlockedOn(g, t, m); }
  }
}
