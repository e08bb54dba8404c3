/** The changes of state that kernel steps are made of, and that each keeps the invariant.

    Acquire takes a free mutex, Drop gives up one nobody waits for, HandOff passes one to its
    first waiter, and Wake takes the first thread off a condition.  The others end in a
    context switch: YieldOut puts the running thread at the back of the ready list, ExitOut on
    the finished list, Block on a mutex's waiting list and Sleep on a condition's.  SwitchIn
    is what the thread switched to does first.  For each there is one lemma about the tables,
    one about the queues, and one each about an arbitrary thread, mutex and condition;
    KernelRuns.dfy puts the steps together from them. */
module KernelSteps {
  import opened SchedulerSpec
  import opened Kernel
  import opened KernelInvariant

  /** The running thread is in thread code or about to lock again. */
  predicate Acting(g: Kernel) {
    !g.resuming && !g.s.halted && g.s.running in g.threads
  }

  lemma PopFront(q: seq<int>)
    requires NoDup(q) && q != []
    ensures NoDup(q[1..]) && forall t :: t in q[1..] <==> t in q && t != q[0]
  {
    forall t | t in q && t != q[0] ensures t in q[1..] {
      var i :| 0 <= i < |q| && q[i] == t;
      assert q[1..][i - 1] == t;
    }
  }

  lemma PushBack(q: seq<int>, x: int)
    requires NoDup(q) && x !in q
    ensures NoDup(q + [x]) && forall t :: t in q + [x] <==> t in q || t == x
  {
  }

  // ---- primitives -------------------------------------------------------------
  // Each primitive X comes with XThread, XMutex, XCond and XIds: what it does to the
  // invariant of one thread, of one mutex, of one condition, and of the id tables.

  function Acquire(g: Kernel, m: int): Kernel
    requires g.s.running in g.threads && m in g.mutexes
  {
    var r := g.s.running;
    g.(mutexes := g.mutexes[m := g.mutexes[m].(owner := r)],
       threads := g.threads[r := g.threads[r].(pos := User, holds := g.threads[r].holds + {m})])
  }

  ghost predicate CanAcquire(g: Kernel, m: int) {
    Base(g) && Acting(g) && m in g.mutexes && (!g.mutexes[m].IsLocked() || g.mutexes[m].owner == g.s.running)
  }

  lemma AcquireThread(g: Kernel, m: int, t: int)
    requires CanAcquire(g, m)
    requires ThreadOk(g, g.s.running) && MutexOk(g, m) && t in g.threads && ThreadOk(g, t)
    ensures ThreadOk(Acquire(g, m), t)
  {
  }

  lemma AcquireMutex(g: Kernel, m: int, k: int)
    requires CanAcquire(g, m)
    requires ThreadOk(g, g.s.running) && MutexOk(g, m) && k in g.mutexes && MutexOk(g, k)
    ensures MutexOk(Acquire(g, m), k)
  {
  }

  lemma AcquireCond(g: Kernel, m: int, k: int)
    requires CanAcquire(g, m)
    requires ThreadOk(g, g.s.running) && MutexOk(g, m) && k in g.conds && CondOk(g, k)
    ensures CondOk(Acquire(g, m), k)
  {
  }

  lemma AcquireTables(g: Kernel, m: int)
    requires CanAcquire(g, m)
    requires ThreadOk(g, g.s.running) && MutexOk(g, m)
    ensures Tables(Acquire(g, m)) && IdleOk(Acquire(g, m))
  {
  }

  lemma AcquireQueues(g: Kernel, m: int)
    requires CanAcquire(g, m)
    requires ThreadOk(g, g.s.running) && MutexOk(g, m)
    ensures Queues(Acquire(g, m))
  {
  }

  lemma AcquireKeeps(g: Kernel, m: int)
    requires Inv(g) && CanAcquire(g, m)
    ensures Inv(Acquire(g, m))
  {
    AcquireTables(g, m);
    AcquireQueues(g, m);
    forall t | t in g.threads ensures ThreadOk(Acquire(g, m), t) { AcquireThread(g, m, t); }
    forall k | k in g.mutexes ensures MutexOk(Acquire(g, m), k) { AcquireMutex(g, m, k); }
    forall k | k in g.conds ensures CondOk(Acquire(g, m), k) { AcquireCond(g, m, k); }
  }

  function Drop(g: Kernel, m: int): Kernel
    requires g.s.running in g.threads && m in g.mutexes
  {
    var r := g.s.running;
    g.(mutexes := g.mutexes[m := g.mutexes[m].(owner := NO_OWNER)],
       threads := g.threads[r := g.threads[r].(holds := g.threads[r].holds - {m})])
  }

  ghost predicate CanDrop(g: Kernel, m: int) {
    Base(g) && Acting(g) && m in g.mutexes && m in Me(g).holds && g.mutexes[m].waiting == []
  }

  lemma DropThread(g: Kernel, m: int, t: int)
    requires CanDrop(g, m)
    requires ThreadOk(g, g.s.running) && MutexOk(g, m) && t in g.threads && ThreadOk(g, t)
    ensures ThreadOk(Drop(g, m), t)
  {
  }

  lemma DropMutex(g: Kernel, m: int, k: int)
    requires CanDrop(g, m)
    requires ThreadOk(g, g.s.running) && MutexOk(g, m) && k in g.mutexes && MutexOk(g, k)
    ensures MutexOk(Drop(g, m), k)
  {
  }

  lemma DropCond(g: Kernel, m: int, k: int)
    requires CanDrop(g, m)
    requires ThreadOk(g, g.s.running) && MutexOk(g, m) && k in g.conds && CondOk(g, k)
    ensures CondOk(Drop(g, m), k)
  {
  }

  lemma DropTables(g: Kernel, m: int)
    requires CanDrop(g, m)
    requires ThreadOk(g, g.s.running) && MutexOk(g, m)
    ensures Tables(Drop(g, m)) && IdleOk(Drop(g, m))
  {
  }

  lemma DropQueues(g: Kernel, m: int)
    requires CanDrop(g, m)
    requires ThreadOk(g, g.s.running) && MutexOk(g, m)
    ensures Queues(Drop(g, m))
  {
  }

  lemma DropKeeps(g: Kernel, m: int)
    requires Inv(g) && CanDrop(g, m)
    ensures Inv(Drop(g, m))
  {
    DropTables(g, m);
    DropQueues(g, m);
    forall t | t in g.threads ensures ThreadOk(Drop(g, m), t) { DropThread(g, m, t); }
    forall k | k in g.mutexes ensures MutexOk(Drop(g, m), k) { DropMutex(g, m, k); }
    forall k | k in g.conds ensures CondOk(Drop(g, m), k) { DropCond(g, m, k); }
  }

  function HandOff(g: Kernel, m: int): Kernel
    requires g.s.running in g.threads && m in g.mutexes && g.mutexes[m].waiting != []
  {
    var r, w := g.s.running, g.mutexes[m].waiting;
    g.(s := ResumeThread(g.s, w[0]),
       mutexes := g.mutexes[m := Mutex(w[0], w[1..])],
       threads := g.threads[r := g.threads[r].(holds := g.threads[r].holds - {m})])
  }

  ghost predicate CanHandOff(g: Kernel, m: int) {
    Base(g) && Acting(g) && m in g.mutexes && m in Me(g).holds && g.mutexes[m].waiting != [] && g.mutexes[m].waiting[0] in g.threads
  }

  lemma HandOffThread(g: Kernel, m: int, t: int)
    requires CanHandOff(g, m)
    requires ThreadOk(g, g.s.running) && MutexOk(g, m) && ThreadOk(g, g.mutexes[m].waiting[0]) && t in g.threads && ThreadOk(g, t)
    ensures ThreadOk(HandOff(g, m), t)
  {
    PopFront(g.mutexes[m].waiting);
    assert BlockedOn(g, g.mutexes[m].waiting[0], m);
  }

  lemma HandOffMutex(g: Kernel, m: int, k: int)
    requires CanHandOff(g, m)
    requires ThreadOk(g, g.s.running) && MutexOk(g, m) && ThreadOk(g, g.mutexes[m].waiting[0]) && k in g.mutexes && MutexOk(g, k)
    ensures MutexOk(HandOff(g, m), k)
  {
    PopFront(g.mutexes[m].waiting);
    assert BlockedOn(g, g.mutexes[m].waiting[0], m);
  }

  lemma HandOffCond(g: Kernel, m: int, k: int)
    requires CanHandOff(g, m)
    requires ThreadOk(g, g.s.running) && MutexOk(g, m) && ThreadOk(g, g.mutexes[m].waiting[0]) && k in g.conds && CondOk(g, k)
    ensures CondOk(HandOff(g, m), k)
  {
    PopFront(g.mutexes[m].waiting);
    assert BlockedOn(g, g.mutexes[m].waiting[0], m);
  }

  lemma HandOffTables(g: Kernel, m: int)
    requires CanHandOff(g, m)
    requires ThreadOk(g, g.s.running) && MutexOk(g, m) && ThreadOk(g, g.mutexes[m].waiting[0])
    ensures Tables(HandOff(g, m)) && IdleOk(HandOff(g, m))
  {
    PopFront(g.mutexes[m].waiting);
    assert BlockedOn(g, g.mutexes[m].waiting[0], m);
  }

  lemma HandOffQueues(g: Kernel, m: int)
    requires CanHandOff(g, m)
    requires ThreadOk(g, g.s.running) && MutexOk(g, m) && ThreadOk(g, g.mutexes[m].waiting[0])
    ensures Queues(HandOff(g, m))
  {
    PopFront(g.mutexes[m].waiting);
    assert BlockedOn(g, g.mutexes[m].waiting[0], m);
    PushBack(g.s.ready, g.mutexes[m].waiting[0]);
  }

  lemma HandOffKeeps(g: Kernel, m: int)
    requires Inv(g) && CanHandOff(g, m)
    ensures Inv(HandOff(g, m))
  {
    HandOffTables(g, m);
    HandOffQueues(g, m);
    forall t | t in g.threads ensures ThreadOk(HandOff(g, m), t) { HandOffThread(g, m, t); }
    forall k | k in g.mutexes ensures MutexOk(HandOff(g, m), k) { HandOffMutex(g, m, k); }
    forall k | k in g.conds ensures CondOk(HandOff(g, m), k) { HandOffCond(g, m, k); }
  }

  function Wake(g: Kernel, c: int): Kernel
    requires c in g.conds && g.conds[c] != []
  {
    g.(s := ResumeThread(g.s, g.conds[c][0]), conds := g.conds[c := g.conds[c][1..]])
  }

  ghost predicate CanWake(g: Kernel, c: int) {
    Base(g) && Acting(g) && c in g.conds && g.conds[c] != [] && g.conds[c][0] in g.threads
  }

  lemma WakeThread(g: Kernel, c: int, t: int)
    requires CanWake(g, c)
    requires ThreadOk(g, g.s.running) && CondOk(g, c) && ThreadOk(g, g.conds[c][0]) && t in g.threads && ThreadOk(g, t)
    ensures ThreadOk(Wake(g, c), t)
  {
    PopFront(g.conds[c]);
    assert Asleep(g, g.conds[c][0], c);
  }

  lemma WakeMutex(g: Kernel, c: int, k: int)
    requires CanWake(g, c)
    requires ThreadOk(g, g.s.running) && CondOk(g, c) && ThreadOk(g, g.conds[c][0]) && k in g.mutexes && MutexOk(g, k)
    ensures MutexOk(Wake(g, c), k)
  {
    PopFront(g.conds[c]);
    assert Asleep(g, g.conds[c][0], c);
  }

  lemma WakeCond(g: Kernel, c: int, k: int)
    requires CanWake(g, c)
    requires ThreadOk(g, g.s.running) && CondOk(g, c) && ThreadOk(g, g.conds[c][0]) && k in g.conds && CondOk(g, k)
    ensures CondOk(Wake(g, c), k)
  {
    PopFront(g.conds[c]);
    assert Asleep(g, g.conds[c][0], c);
  }

  lemma WakeTables(g: Kernel, c: int)
    requires CanWake(g, c)
    requires ThreadOk(g, g.s.running) && CondOk(g, c) && ThreadOk(g, g.conds[c][0])
    ensures Tables(Wake(g, c)) && IdleOk(Wake(g, c))
  {
    PopFront(g.conds[c]);
    assert Asleep(g, g.conds[c][0], c);
  }

  lemma WakeQueues(g: Kernel, c: int)
    requires CanWake(g, c)
    requires ThreadOk(g, g.s.running) && CondOk(g, c) && ThreadOk(g, g.conds[c][0])
    ensures Queues(Wake(g, c))
  {
    PopFront(g.conds[c]);
    assert Asleep(g, g.conds[c][0], c);
    PushBack(g.s.ready, g.conds[c][0]);
  }

  lemma WakeKeeps(g: Kernel, c: int)
    requires Inv(g) && CanWake(g, c)
    ensures Inv(Wake(g, c))
  {
    WakeTables(g, c);
    WakeQueues(g, c);
    forall t | t in g.threads ensures ThreadOk(Wake(g, c), t) { WakeThread(g, c, t); }
    forall k | k in g.mutexes ensures MutexOk(Wake(g, c), k) { WakeMutex(g, c, k); }
    forall k | k in g.conds ensures CondOk(Wake(g, c), k) { WakeCond(g, c, k); }
  }

  /** The thread the next context switch goes to. */
  ghost predicate NextOk(g: Kernel) {
    CanSwitch(g.s) && g.s.ready[0] in g.threads && ThreadOk(g, g.s.ready[0])
  }

  /** A context switch out of the running thread, leaving it at `me`. */
  function SwitchOut(g: Kernel, st: ThreadState, pre: int, me: Thread): Kernel
    requires CanSwitch(g.s)
  {
    Move(g, Switched(g.s, st, pre), me, true)
  }

  /** Both ways to give up the CPU and stay ready: yield, or preempted by a tick. */
  function YieldOut(g: Kernel, byTick: bool): Kernel
    requires CanSwitch(g.s) && g.s.running in g.threads
  {
    if byTick then SwitchOut(g, READY, 1, Me(g).(preempted := true)) else SwitchOut(g, READY, 0, Me(g).(pos := YieldTail))
  }

  ghost predicate CanYieldOut(g: Kernel, byTick: bool) {
    Base(g) && Acting(g) && CanSwitch(g.s) && (byTick || Me(g).pos.User?)
  }

  lemma YieldOutThread(g: Kernel, byTick: bool, t: int)
    requires CanYieldOut(g, byTick)
    requires ThreadOk(g, g.s.running) && NextOk(g) && t in g.threads && ThreadOk(g, t)
    ensures ThreadOk(YieldOut(g, byTick), t)
  {
    PopFront(g.s.ready);
  }

  lemma YieldOutMutex(g: Kernel, byTick: bool, k: int)
    requires CanYieldOut(g, byTick)
    requires ThreadOk(g, g.s.running) && NextOk(g) && k in g.mutexes && MutexOk(g, k)
    ensures MutexOk(YieldOut(g, byTick), k)
  {
    PopFront(g.s.ready);
  }

  lemma YieldOutCond(g: Kernel, byTick: bool, k: int)
    requires CanYieldOut(g, byTick)
    requires ThreadOk(g, g.s.running) && NextOk(g) && k in g.conds && CondOk(g, k)
    ensures CondOk(YieldOut(g, byTick), k)
  {
    PopFront(g.s.ready);
  }

  lemma YieldOutTables(g: Kernel, byTick: bool)
    requires CanYieldOut(g, byTick)
    requires ThreadOk(g, g.s.running) && NextOk(g)
    ensures Tables(YieldOut(g, byTick)) && IdleOk(YieldOut(g, byTick))
  {
    PopFront(g.s.ready);
  }

  lemma RunnerNotReady(g: Kernel)
    requires Tables(g) && g.s.running in g.threads && ThreadOk(g, g.s.running)
    ensures g.s.running !in g.s.ready
  {
  }

  lemma YieldOutQueues(g: Kernel, byTick: bool)
    requires CanYieldOut(g, byTick)
    requires ThreadOk(g, g.s.running) && NextOk(g)
    ensures Queues(YieldOut(g, byTick))
  {
    RunnerNotReady(g);
    RotatedQueues(g, byTick);
  }

  lemma RotatedQueues(g: Kernel, byTick: bool)
    requires CanYieldOut(g, byTick) && g.s.running !in g.s.ready
    ensures Queues(YieldOut(g, byTick))
  {
    PopFront(g.s.ready);
    PushBack(g.s.ready[1..], g.s.running);
  }

  lemma YieldOutKeeps(g: Kernel, byTick: bool)
    requires Inv(g) && CanYieldOut(g, byTick)
    ensures Inv(YieldOut(g, byTick))
  {
    assert g.s.ready[0] in g.s.ready;
    YieldOutTables(g, byTick);
    YieldOutQueues(g, byTick);
    forall t | t in g.threads ensures ThreadOk(YieldOut(g, byTick), t) { YieldOutThread(g, byTick, t); }
    forall k | k in g.mutexes ensures MutexOk(YieldOut(g, byTick), k) { YieldOutMutex(g, byTick, k); }
    forall k | k in g.conds ensures CondOk(YieldOut(g, byTick), k) { YieldOutCond(g, byTick, k); }
  }

  function ExitOut(g: Kernel): Kernel
    requires CanSwitch(g.s) && g.s.running in g.threads
  {
    SwitchOut(g, FINISHED, 0, Me(g).(pos := Gone))
  }

  ghost predicate CanExitOut(g: Kernel) {
    Base(g) && Acting(g) && CanSwitch(g.s) && g.s.running != IDLE
  }

  lemma ExitOutThread(g: Kernel, t: int)
    requires CanExitOut(g)
    requires ThreadOk(g, g.s.running) && NextOk(g) && t in g.threads && ThreadOk(g, t)
    ensures ThreadOk(ExitOut(g), t)
  {
    PopFront(g.s.ready);
  }

  lemma ExitOutMutex(g: Kernel, k: int)
    requires CanExitOut(g)
    requires ThreadOk(g, g.s.running) && NextOk(g) && k in g.mutexes && MutexOk(g, k)
    ensures MutexOk(ExitOut(g), k)
  {
    PopFront(g.s.ready);
  }

  lemma ExitOutCond(g: Kernel, k: int)
    requires CanExitOut(g)
    requires ThreadOk(g, g.s.running) && NextOk(g) && k in g.conds && CondOk(g, k)
    ensures CondOk(ExitOut(g), k)
  {
    PopFront(g.s.ready);
  }

  lemma ExitOutTables(g: Kernel)
    requires CanExitOut(g)
    requires ThreadOk(g, g.s.running) && NextOk(g)
    ensures Tables(ExitOut(g)) && IdleOk(ExitOut(g))
  {
    PopFront(g.s.ready);
  }

  lemma ExitOutQueues(g: Kernel)
    requires CanExitOut(g)
    requires ThreadOk(g, g.s.running) && NextOk(g)
    ensures Queues(ExitOut(g))
  {
    PopFront(g.s.ready);
    PushBack(g.s.finished, g.s.running);
  }

  lemma ExitOutKeeps(g: Kernel)
    requires Inv(g) && CanExitOut(g)
    ensures Inv(ExitOut(g))
  {
    assert g.s.ready[0] in g.s.ready;
    ExitOutTables(g);
    ExitOutQueues(g);
    forall t | t in g.threads ensures ThreadOk(ExitOut(g), t) { ExitOutThread(g, t); }
    forall k | k in g.mutexes ensures MutexOk(ExitOut(g), k) { ExitOutMutex(g, k); }
    forall k | k in g.conds ensures CondOk(ExitOut(g), k) { ExitOutCond(g, k); }
  }

  function Block(g: Kernel, m: int): Kernel
    requires CanSwitch(g.s) && g.s.running in g.threads && m in g.mutexes
  {
    SwitchOut(g, WAITING, -1, Me(g).(pos := LockTail(m)))
      .(mutexes := g.mutexes[m := g.mutexes[m].(waiting := g.mutexes[m].waiting + [g.s.running])])
  }

  ghost predicate CanBlock(g: Kernel, m: int) {
    Base(g) && Acting(g) && CanSwitch(g.s) && g.s.running != IDLE && m in g.mutexes && g.mutexes[m].IsLocked() && g.mutexes[m].owner != g.s.running
  }

  lemma BlockThread(g: Kernel, m: int, t: int)
    requires CanBlock(g, m)
    requires ThreadOk(g, g.s.running) && NextOk(g) && MutexOk(g, m) && t in g.threads && ThreadOk(g, t)
    ensures ThreadOk(Block(g, m), t)
  {
    PopFront(g.s.ready);
  }

  lemma BlockOtherMutex(g: Kernel, m: int, k: int)
    requires CanBlock(g, m) && k != m
    requires ThreadOk(g, g.s.running) && NextOk(g) && k in g.mutexes && MutexOk(g, k)
    ensures MutexOk(Block(g, m), k)
  {
    PopFront(g.s.ready);
  }

  lemma BlockMutex(g: Kernel, m: int, k: int)
    requires CanBlock(g, m)
    requires ThreadOk(g, g.s.running) && NextOk(g) && MutexOk(g, m) && k in g.mutexes && MutexOk(g, k)
    ensures MutexOk(Block(g, m), k)
  {
    if k == m { BlockSameMutex(g, m); } else { BlockOtherMutex(g, m, k); }
  }

  lemma BlockSameMutex(g: Kernel, m: int)
    requires CanBlock(g, m) && ThreadOk(g, g.s.running) && NextOk(g) && MutexOk(g, m)
    ensures MutexOk(Block(g, m), m)
  {
    var g', q := Block(g, m), g.mutexes[m].waiting;
    assert g.s.running !in q;
    PushBack(q, g.s.running);
    forall t | t in q + [g.s.running] ensures BlockedOn(g', t, m) { BlockWaiter(g, m, t); }
    BlockOwner(g, m);
  }

  lemma BlockWaiter(g: Kernel, m: int, t: int)
    requires CanBlock(g, m) && ThreadOk(g, g.s.running) && NextOk(g) && MutexOk(g, m)
    requires t in g.mutexes[m].waiting || t == g.s.running
    ensures BlockedOn(Block(g, m), t, m)
  {
  }

  lemma BlockOwner(g: Kernel, m: int)
    requires CanBlock(g, m) && ThreadOk(g, g.s.running) && NextOk(g) && MutexOk(g, m)
    ensures var g' := Block(g, m); var o := g'.mutexes[m].owner;
      o > 0 && o in g'.threads && (m in g'.threads[o].holds || HandedOff(g', o, m))
  {
  }

  lemma BlockCond(g: Kernel, m: int, k: int)
    requires CanBlock(g, m)
    requires ThreadOk(g, g.s.running) && NextOk(g) && MutexOk(g, m) && k in g.conds && CondOk(g, k)
    ensures CondOk(Block(g, m), k)
  {
    PopFront(g.s.ready);
  }

  lemma BlockTables(g: Kernel, m: int)
    requires CanBlock(g, m)
    requires ThreadOk(g, g.s.running) && NextOk(g) && MutexOk(g, m)
    ensures Tables(Block(g, m)) && IdleOk(Block(g, m))
  {
    PopFront(g.s.ready);
  }

  lemma BlockQueues(g: Kernel, m: int)
    requires CanBlock(g, m)
    requires ThreadOk(g, g.s.running) && NextOk(g) && MutexOk(g, m)
    ensures Queues(Block(g, m))
  {
    PopFront(g.s.ready);
  }

  lemma BlockKeeps(g: Kernel, m: int)
    requires Inv(g) && CanBlock(g, m)
    ensures Inv(Block(g, m))
  {
    assert g.s.ready[0] in g.s.ready;
    BlockTables(g, m);
    BlockQueues(g, m);
    forall t | t in g.threads ensures ThreadOk(Block(g, m), t) { BlockThread(g, m, t); }
    forall k | k in g.mutexes ensures MutexOk(Block(g, m), k) { BlockMutex(g, m, k); }
    forall k | k in g.conds ensures CondOk(Block(g, m), k) { BlockCond(g, m, k); }
  }

  function Sleep(g: Kernel, c: int, m: int): Kernel
    requires CanSwitch(g.s) && g.s.running in g.threads && c in g.conds
  {
    SwitchOut(g, WAITING, -1, Me(g).(pos := WaitTail(c, m))).(conds := g.conds[c := g.conds[c] + [g.s.running]])
  }

  ghost predicate CanSleep(g: Kernel, c: int, m: int) {
    Base(g) && Acting(g) && CanSwitch(g.s) && g.s.running != IDLE && m in g.mutexes && c in g.conds
  }

  lemma SleepThread(g: Kernel, c: int, m: int, t: int)
    requires CanSleep(g, c, m)
    requires ThreadOk(g, g.s.running) && NextOk(g) && CondOk(g, c) && t in g.threads && ThreadOk(g, t)
    ensures ThreadOk(Sleep(g, c, m), t)
  {
    PopFront(g.s.ready);
  }

  lemma SleepMutex(g: Kernel, c: int, m: int, k: int)
    requires CanSleep(g, c, m)
    requires ThreadOk(g, g.s.running) && NextOk(g) && CondOk(g, c) && k in g.mutexes && MutexOk(g, k)
    ensures MutexOk(Sleep(g, c, m), k)
  {
    PopFront(g.s.ready);
  }

  lemma SleepCond(g: Kernel, c: int, m: int, k: int)
    requires CanSleep(g, c, m)
    requires ThreadOk(g, g.s.running) && NextOk(g) && CondOk(g, c) && k in g.conds && CondOk(g, k)
    ensures CondOk(Sleep(g, c, m), k)
  {
    PopFront(g.s.ready);
    PushBack(g.conds[c], g.s.running);
  }

  lemma SleepTables(g: Kernel, c: int, m: int)
    requires CanSleep(g, c, m)
    requires ThreadOk(g, g.s.running) && NextOk(g) && CondOk(g, c)
    ensures Tables(Sleep(g, c, m)) && IdleOk(Sleep(g, c, m))
  {
    PopFront(g.s.ready);
  }

  lemma SleepQueues(g: Kernel, c: int, m: int)
    requires CanSleep(g, c, m)
    requires ThreadOk(g, g.s.running) && NextOk(g) && CondOk(g, c)
    ensures Queues(Sleep(g, c, m))
  {
    PopFront(g.s.ready);
  }

  lemma SleepKeeps(g: Kernel, c: int, m: int)
    requires Inv(g) && CanSleep(g, c, m)
    ensures Inv(Sleep(g, c, m))
  {
    assert g.s.ready[0] in g.s.ready;
    SleepTables(g, c, m);
    SleepQueues(g, c, m);
    forall t | t in g.threads ensures ThreadOk(Sleep(g, c, m), t) { SleepThread(g, c, m, t); }
    forall k | k in g.mutexes ensures MutexOk(Sleep(g, c, m), k) { SleepMutex(g, c, m, k); }
    forall k | k in g.conds ensures CondOk(Sleep(g, c, m), k) { SleepCond(g, c, m, k); }
  }

  function Landed(th: Thread): Thread {
    if th.preempted then th.(preempted := false)
    else match th.pos
      case LockTail(m) => th.(pos := User, holds := th.holds + {m})
      case WaitTail(c, m) => th.(pos := Relock(m))
      case _ => th.(pos := User)
  }

  /** The running thread closes its brackets and is back in its own code. */
  function SwitchIn(g: Kernel): Kernel
    requires g.s.running in g.threads && g.s.running in g.s.tcbs
  {
    var r := g.s.running;
    g.(s := g.s.(nest := 0, tcbs := g.s.tcbs[r := g.s.tcbs[r].(preemptionOn := 1)]),
       threads := g.threads[r := Landed(g.threads[r])], resuming := false)
  }

  ghost predicate CanSwitchIn(g: Kernel) {
    Base(g) && g.resuming && g.s.running in g.threads && g.s.running in g.s.tcbs
  }

  lemma SwitchInThread(g: Kernel, t: int)
    requires CanSwitchIn(g)
    requires ThreadOk(g, g.s.running) && t in g.threads && ThreadOk(g, t)
    ensures ThreadOk(SwitchIn(g), t)
  {
  }

  lemma SwitchInMutex(g: Kernel, k: int)
    requires CanSwitchIn(g)
    requires ThreadOk(g, g.s.running) && k in g.mutexes && MutexOk(g, k)
    ensures MutexOk(SwitchIn(g), k)
  {
  }

  lemma SwitchInCond(g: Kernel, k: int)
    requires CanSwitchIn(g)
    requires ThreadOk(g, g.s.running) && k in g.conds && CondOk(g, k)
    ensures CondOk(SwitchIn(g), k)
  {
  }

  lemma SwitchInTables(g: Kernel)
    requires CanSwitchIn(g)
    requires ThreadOk(g, g.s.running)
    ensures Tables(SwitchIn(g)) && IdleOk(SwitchIn(g))
  {
  }

  lemma SwitchInQueues(g: Kernel)
    requires CanSwitchIn(g)
    requires ThreadOk(g, g.s.running)
    ensures Queues(SwitchIn(g))
  {
  }

  lemma SwitchInKeeps(g: Kernel)
    requires Inv(g) && CanSwitchIn(g)
    ensures Inv(SwitchIn(g))
  {
    SwitchInTables(g);
    SwitchInQueues(g);
    forall t | t in g.threads ensures ThreadOk(SwitchIn(g), t) { SwitchInThread(g, t); }
    forall k | k in g.mutexes ensures MutexOk(SwitchIn(g), k) { SwitchInMutex(g, k); }
    forall k | k in g.conds ensures CondOk(SwitchIn(g), k) { SwitchInCond(g, k); }
  }

}
