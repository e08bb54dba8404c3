/** The whole kernel as a transition system over any number of threads, mutexes and
    condition variables.

    One step is one stretch of kernel code by the running thread, up to and including
    the context switch in it.  After a context switch the only step is Resume: the
    thread switched to continues at its own resume point (fresh in stub_wrapper,
    voluntary inside switchCurrentThreadTo, or preempted inside the interrupt
    handler).  Timer interrupts come only while the running thread allows preemption. */
module Kernel {
  import opened SchedulerSpec

  /** Where a thread continues when it next executes. */
  datatype Pos =
    | Fresh                        // never run: enters stub_wrapper
    | User                         // in thread code, outside the kernel
    | YieldTail                    // inside yield
    | LockTail(m: int)             // suspended inside lock
    | WaitTail(c: int, m: int)     // suspended inside wait
    | Relock(m: int)               // woken inside wait, about to lock again
    | Gone                         // has exited

  /** `holds` is the thread's own view: the mutexes whose lock has returned to it and
      which it has not unlocked since. */
  datatype Thread = Thread(pos: Pos, preempted: bool, holds: set<int>)

  datatype Kernel = Kernel(
    s: Sched,
    mutexes: map<int, Mutex>, mutexSeq: nat,
    conds: map<int, seq<int>>, condSeq: nat,
    threads: map<int, Thread>,
    resuming: bool,                // a context switch has just happened
    sleepCond: int, systick: nat)

  datatype Step =
    | Resume
    | LockStep(m: int) | TryLockStep(m: int) | UnlockStep(m: int)
    | WaitStep(c: int, m: int) | RelockStep | NotifyStep(c: int)
    | YieldStep | ExitStep | CreateStep | ReclaimStep
    | NewMutexStep | NewCondStep
    | JoinEntryStep(tid: int)      // the table accesses at the start of join
    | InterruptStep(tick: bool)

  predicate Synchronises(step: Step) {
    step.LockStep? || step.RelockStep? || step.UnlockStep? || step.WaitStep? || step.NotifyStep? || step.TryLockStep?
  }

  const IDLE := 1

  function Me(g: Kernel): Thread
    requires g.s.running in g.threads
  {
    g.threads[g.s.running]
  }

  /** What the scheduler and the client discipline allow next: only the holder calls
      unlock or wait, handles have been created, the idle thread only yields, and nobody
      joins a thread whose block has been reclaimed. */
  predicate Enabled(g: Kernel, step: Step) {
    && !g.s.halted
    && g.s.running in g.threads
    && var me := Me(g);
    && (g.resuming <==> step.Resume?)
    && (g.s.running == IDLE ==> step.Resume? || step.YieldStep? || step.InterruptStep?)
    && match step
       case Resume => true
       case LockStep(m) => me.pos.User? && m in g.mutexes
       case TryLockStep(m) => me.pos.User? && m in g.mutexes
       case UnlockStep(m) => me.pos.User? && m in g.mutexes && m in me.holds
       case WaitStep(c, m) => me.pos.User? && m in g.mutexes && m in me.holds && c in g.conds
       case RelockStep => me.pos.Relock? && me.pos.m in g.mutexes
       case NotifyStep(c) => me.pos.User? && c in g.conds
       case JoinEntryStep(t) => me.pos.User? && (t in g.s.tcbs || t < 0 || t > g.s.counter)
       case InterruptStep(tick) => (me.pos.User? || me.pos.Relock?) && AllowPreemption(g.s)
       case _ => me.pos.User?
  }

  function Move(g: Kernel, s: Sched, me: Thread, switched: bool): Kernel {
    g.(s := s, threads := g.threads[g.s.running := me], resuming := switched)
  }

  function ApplyLock(g: Kernel, m: int): Kernel
    requires g.s.running in g.threads && m in g.mutexes
  {
    var me, l := Me(g), Lock(g.s, g.mutexes[m]);
    Move(g, l.s, if l.switched then me.(pos := LockTail(m)) else me.(pos := User, holds := me.holds + {m}), l.switched)
      .(mutexes := g.mutexes[m := l.m])
  }

  function ApplyTryLock(g: Kernel, m: int): Kernel
    requires g.s.running in g.threads && m in g.mutexes
  {
    var me, l := Me(g), TryLock(g.s, g.mutexes[m]);
    Move(g, l.s, if l.acquired then me.(holds := me.holds + {m}) else me, false)
      .(mutexes := g.mutexes[m := l.m])
  }

  function ApplyUnlock(g: Kernel, m: int): Kernel
    requires g.s.running in g.threads && m in g.mutexes
  {
    var me, u := Me(g), Unlock(g.s, g.mutexes[m]);
    Move(g, u.s, me.(holds := me.holds - {m}), false).(mutexes := g.mutexes[m := u.m])
  }

  function ApplyWait(g: Kernel, c: int, m: int): Kernel
    requires g.s.running in g.threads && m in g.mutexes && c in g.conds
  {
    var me, w := Me(g), Wait(g.s, g.conds[c], g.mutexes[m]);
    Move(g, w.s, me.(pos := if w.switched then WaitTail(c, m) else Relock(m), holds := me.holds - {m}), w.switched)
      .(mutexes := g.mutexes[m := w.m], conds := g.conds[c := w.c])
  }

  function ApplyNotify(g: Kernel, c: int): Kernel
    requires c in g.conds
  {
    var n := NotifyOne(g.s, g.conds[c]);
    g.(s := n.s, conds := g.conds[c := n.c])
  }

  function ApplySwitch(g: Kernel, st: ThreadState, pos: Pos): Kernel
    requires g.s.running in g.threads
  {
    var me, w := Me(g), SwitchCurrentThreadTo(g.s, st);
    Move(g, w.s, if w.switched then me.(pos := pos) else me, w.switched)
  }

  function NewMutex(g: Kernel): Kernel {
    g.(mutexSeq := g.mutexSeq + 1, mutexes := g.mutexes[g.mutexSeq + 1 := FRESH_MUTEX])
  }

  function NewCond(g: Kernel): Kernel {
    g.(condSeq := g.condSeq + 1, conds := g.conds[g.condSeq + 1 := []])
  }

  /** create, with the two objects init makes for join. */
  function ApplyCreate(g: Kernel): Kernel {
    var g1 := NewCond(NewMutex(g));
    g1.(s := CreateThread(g1.s, g1.mutexSeq, g1.condSeq),
        threads := g1.threads[g1.s.counter + 1 := Thread(Fresh, false, {})])
  }

  /** The sleep timer object is made on the first timer interrupt. */
  function MakeSleepTimer(g: Kernel): Kernel {
    if g.sleepCond in g.conds then g
    else var g1 := NewCond(NewMutex(g)); g1.(sleepCond := g1.condSeq)
  }

  function UpdateTick(g: Kernel): Kernel {
    var g1 := MakeSleepTimer(g);
    if g1.sleepCond !in g1.conds then g1
    else g1.(systick := g1.systick + 1, s := NotifyAll(g1.s, g1.conds[g1.sleepCond]), conds := g1.conds[g1.sleepCond := []])
  }

  /** The end of the handler once inInterruptYield has returned. */
  function LeaveHandler(s: Sched): Sched { s.(nest := s.nest - 1) }

  function YieldInHandler(g: Kernel): Kernel
    requires g.s.running in g.threads
  {
    var w := InInterruptYield(g.s);
    if w.switched then Move(g, w.s, Me(g).(preempted := true), true)
    else g.(s := LeaveHandler(w.s))
  }

  function ApplyInterrupt(g: Kernel, tick: bool): Kernel
    requires g.s.running in g.threads
  {
    var g1 := g.(s := g.s.(nest := g.s.nest + 1));
    var g2 := if tick then UpdateTick(g1) else g1;
    if g2.s.running !in g2.threads then g2 else YieldInHandler(g2)
  }

  /** What the thread just switched to does before it is back in its own code. */
  function ApplyResume(g: Kernel): Kernel
    requires g.s.running in g.threads
  {
    var me := Me(g);
    if me.preempted then Move(g, LeaveHandler(g.s), me.(preempted := false), false)
    else match me.pos
      case Fresh => Move(g, g.s.(nest := EnableInterrupts(g.s.nest)), me.(pos := User), false)
      case YieldTail => Move(g, SwitchReturn(g.s), me.(pos := User), false)
      case LockTail(m) => Move(g, LockReturn(g.s), me.(pos := User, holds := me.holds + {m}), false)
      case WaitTail(c, m) => Move(g, WaitReturn(g.s), me.(pos := Relock(m)), false)
      case _ => g
  }

  function Apply(g: Kernel, step: Step): Kernel
    requires Enabled(g, step)
  {
    match step
    case Resume => ApplyResume(g)
    case LockStep(m) => ApplyLock(g, m)
    case TryLockStep(m) => ApplyTryLock(g, m)
    case UnlockStep(m) => ApplyUnlock(g, m)
    case WaitStep(c, m) => ApplyWait(g, c, m)
    case RelockStep => ApplyLock(g, Me(g).pos.m)
    case NotifyStep(c) => ApplyNotify(g, c)
    case YieldStep => ApplySwitch(g, READY, YieldTail)
    case ExitStep => ApplySwitch(g, FINISHED, Gone)
    case CreateStep => ApplyCreate(g)
    case ReclaimStep => g.(s := Reclaim(g.s))
    case NewMutexStep => NewMutex(g)
    case NewCondStep => NewCond(g)
    case JoinEntryStep(t) => g.(s := JoinEntry(g.s, t))
    case InterruptStep(tick) => ApplyInterrupt(g, tick)
  }

  // ---- boot and runs ----------------------------------------------------------

  /** main: interrupts off, then the idle thread, then the cartridge thread, then launch. */
  function Boot(): Kernel {
    var s0 := Sched(0, 0, [], [], map[], DisableInterrupts(0), false);
    var g0 := Kernel(s0, map[], 0, map[], 0, map[], false, NO_OWNER, 0);
    var g2 := ApplyCreate(ApplyCreate(g0));
    var l := LaunchFirstTask(g2.s);
    g2.(s := l.s, resuming := l.switched)
  }

  /** State i of a run: the boot state, or what step i - 1 makes of the state before. */
  ghost predicate StateOf(gs: seq<Kernel>, steps: seq<Step>, i: int)
    requires 0 <= i < |gs| == |steps| + 1
  {
    if i == 0 then gs[0] == Boot() else Enabled(gs[i - 1], steps[i - 1]) && gs[i] == Apply(gs[i - 1], steps[i - 1])
  }

  ghost predicate IsRun(gs: seq<Kernel>, steps: seq<Step>) {
    |gs| == |steps| + 1 && forall i :: 0 <= i < |gs| ==> StateOf(gs, steps, i)
  }

  ghost predicate Reached(g: Kernel) { exists gs, steps :: IsRun(gs, steps) && gs[|gs| - 1] == g }
}
