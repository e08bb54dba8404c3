/** What one step does to the ready list.

    Whatever the step, the ready list changes only at its two ends: threads are added at the
    back, and the front is taken away exactly when the step switches to it.  The tail that a
    step adds depends on the step: a yield and a preemption add the thread that runs, an unlock
    adds the waiter that the mutex is handed to, a notification the thread it wakes, a timer
    interrupt all that sleep and then perhaps the thread it preempts, and creation the new
    thread.  Blocking, waiting and exiting add nobody but what a release before them adds.
    There is one lemma for each step, named after it, and StepQueues puts them together.  That
    round robin is fair follows from this alone, by counting switches, as KernelTheorems.dfy
    shows. */
module KernelQueues {
  import opened SchedulerSpec
  import opened Kernel
  import opened KernelInvariant
  import opened KernelSteps
  import opened KernelRuns

  predicate IsSwitch(g: Kernel, g': Kernel) { !g.resuming && g'.resuming }

  /** Only the front is popped, only the back grows, and the popped thread runs. */
  predicate Queued(g: Kernel, g': Kernel, tail: seq<int>) {
    var q := g.s.ready + tail;
    if IsSwitch(g, g') then q != [] && g'.s.ready == q[1..] && g'.s.running == q[0]
    else g'.s.ready == q && g'.s.running == g.s.running
  }

  lemma ReleaseQueues(g: Kernel, m: int) returns (tail: seq<int>)
    requires Inv(g) && Ready0(g) && m in g.mutexes && m in Me(g).holds
    ensures Release(g, m).s.ready == g.s.ready + tail && Release(g, m).s.running == g.s.running
  {
    UnlockKeeps(g, m);
    tail := if g.mutexes[m].waiting == [] then [] else [g.mutexes[m].waiting[0]];
  }

  lemma WakeOneQueues(g: Kernel, c: int) returns (g1: Kernel)
    requires Inv(g) && Acting(g) && c in g.conds && g.conds[c] != []
    ensures g1 == ApplyNotify(g, c) && WakeAll(g, c) == WakeAll(g1, c)
    ensures Inv(g1) && Acting(g1) && c in g1.conds && |g1.conds[c]| < |g.conds[c]| && g1.s.ready == g.s.ready + [g.conds[c][0]]
  {
    g1 := ApplyNotify(g, c);
    NotifyKeeps(g, c);
    assert CondOk(g, c) && g.conds[c][0] in g.conds[c] && Asleep(g, g.conds[c][0], c);
  }

  lemma {:induction false} WakeAllQueues(g: Kernel, c: int) returns (tail: seq<int>)
    requires Inv(g) && Acting(g) && c in g.conds
    ensures WakeAll(g, c).s.ready == g.s.ready + tail
    decreases |g.conds[c]|
  {
    if g.conds[c] == [] { return []; }
    var g1 := WakeOneQueues(g, c);
    tail := WakeAllQueues(g1, c);
    tail := [g.conds[c][0]] + tail;
  }

  lemma TickQueues(g: Kernel) returns (tail: seq<int>)
    requires Inv(g) && Acting(g)
    ensures UpdateTick(g).s.ready == g.s.ready + tail
  {
    MakeSleepTimerKeeps(g);
    var g1 := MakeSleepTimer(g);
    var g2 := g1.(systick := g1.systick + 1);
    CountersFree(g1, g2);
    UpdateTickForm(g);
    tail := WakeAllQueues(g2, g2.sleepCond);
  }

  lemma HandlerQueues(g: Kernel) returns (tail: seq<int>)
    requires Inv(g) && Acting(g) && g.s.nest == 1
    ensures Queued(g, YieldInHandler(g), tail)
  {
    YieldInHandlerKeeps(g);
    tail := if g.s.ready == [] then [] else [g.s.running];
  }

  lemma TickedQueues(g: Kernel, tick: bool) returns (tail: seq<int>)
    requires Inv(g) && Ready0(g)
    ensures Ticked(g, tick).s.ready == g.s.ready + tail
  {
    tail := [];
    if tick {
      var g1 := g.(s := g.s.(nest := 1));
      CountersFree(g, g1);
      tail := TickQueues(g1);
    }
  }

  lemma QueuedAfter(g: Kernel, g1: Kernel, g2: Kernel, woken: seq<int>, back: seq<int>)
    requires g1.s.ready == g.s.ready + woken && g1.s.running == g.s.running && g1.resuming == g.resuming
    requires Queued(g1, g2, back)
    ensures Queued(g, g2, woken + back)
  {
    assert g.s.ready + (woken + back) == g1.s.ready + back;
  }

  lemma InterruptQueues(g: Kernel, tick: bool) returns (tail: seq<int>)
    requires Inv(g) && Ready0(g)
    ensures Queued(g, ApplyInterrupt(g, tick), tail)
  {
    TickedKeeps(g, tick);
    InterruptKeeps(g, tick);
    var g2 := Ticked(g, tick);
    var woken := TickedQueues(g, tick);
    var back := HandlerQueues(g2);
    tail := woken + back;
    QueuedAfter(g, g2, ApplyInterrupt(g, tick), woken, back);
  }

  lemma UnlockQueues(g: Kernel, m: int) returns (tail: seq<int>)
    requires Inv(g) && Ready0(g) && m in g.mutexes && m in Me(g).holds
    ensures Queued(g, ApplyUnlock(g, m), tail)
  {
    UnlockKeeps(g, m);
    tail := ReleaseQueues(g, m);
  }

  lemma WaitQueues(g: Kernel, c: int, m: int) returns (tail: seq<int>)
    requires Inv(g) && Ready0(g) && m in g.mutexes && m in Me(g).holds && c in g.conds && g.s.running != IDLE
    ensures Queued(g, ApplyWait(g, c, m), tail)
  {
    WaitKeeps(g, c, m);
    tail := ReleaseQueues(g, m);
  }

  lemma LockQueues(g: Kernel, m: int)
    requires Inv(g) && Ready0(g) && m in g.mutexes && g.s.running != IDLE
    ensures Queued(g, ApplyLock(g, m), [])
  {
    LockKeeps(g, m);
  }

  lemma NotifyQueues(g: Kernel, c: int) returns (tail: seq<int>)
    requires Inv(g) && Ready0(g) && c in g.conds
    ensures Queued(g, ApplyNotify(g, c), tail)
  {
    NotifyKeeps(g, c);
    tail := [];
    if g.conds[c] != [] {
      assert Asleep(g, g.conds[c][0], c) by { assert CondOk(g, c) && g.conds[c][0] in g.conds[c]; }
      tail := [g.conds[c][0]];
    }
  }

  lemma YieldQueues(g: Kernel) returns (tail: seq<int>)
    requires Inv(g) && Ready0(g) && Me(g).pos.User?
    ensures Queued(g, ApplySwitch(g, READY, YieldTail), tail)
  {
    YieldKeeps(g);
    tail := if g.s.ready == [] then [] else [g.s.running];
  }

  lemma ExitQueues(g: Kernel)
    requires Inv(g) && Ready0(g) && Me(g).pos.User? && g.s.running != IDLE
    ensures Queued(g, ApplySwitch(g, FINISHED, Gone), [])
  {
    ExitKeeps(g);
  }

  lemma QuietQueues(g: Kernel, step: Step)
    requires Inv(g) && NestIs(g, 0) && Enabled(g, step)
    requires step.Resume? || step.TryLockStep? || step.ReclaimStep? || step.NewMutexStep? || step.NewCondStep?
      || step.JoinEntryStep?
    ensures Queued(g, Apply(g, step), [])
  {
    match step
    case Resume => ResumeKeeps(g);
    case TryLockStep(m) => TryLockKeeps(g, m);
    case _ =>
  }

  lemma SyncQueues(g: Kernel, step: Step) returns (tail: seq<int>)
    requires Inv(g) && NestIs(g, 0) && Enabled(g, step) && Synchronises(step)
    ensures Queued(g, Apply(g, step), tail)
  {
    tail := [];
    match step
    case LockStep(m) => LockQueues(g, m);
    case RelockStep => LockQueues(g, Me(g).pos.m);
    case UnlockStep(m) => tail := UnlockQueues(g, m);
    case WaitStep(c, m) => tail := WaitQueues(g, c, m);
    case NotifyStep(c) => tail := NotifyQueues(g, c);
    case TryLockStep(m) => QuietQueues(g, step);
  }

  lemma StepQueues(g: Kernel, step: Step) returns (tail: seq<int>)
    requires Inv(g) && NestIs(g, 0) && Enabled(g, step)
    ensures Queued(g, Apply(g, step), tail)
  {
    if Synchronises(step) {
      tail := SyncQueues(g, step);
    } else {
      tail := [];
      match step
      case YieldStep => tail := YieldQueues(g);
      case ExitStep => ExitQueues(g);
      case CreateStep => CreateKeeps(g); tail := [g.s.counter + 1];
      case InterruptStep(tick) => tail := InterruptQueues(g, tick);
      case _ => QuietQueues(g, step);
    }
  }
}
