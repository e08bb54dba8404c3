/** The inductive invariant of the kernel. */
module KernelInvariant {
  import opened SchedulerSpec
  import opened Kernel

  ghost predicate NoDup(q: seq<int>) {
    forall i, j :: 0 <= i < j < |q| ==> q[i] != q[j]
  }

  predicate Executing(g: Kernel, t: int) { t == g.s.running && !g.resuming }

  predicate Live(g: Kernel, t: int) {
    t in g.threads && t in g.s.tcbs && !g.threads[t].pos.Gone?
  }

  /** The number of setPreemption(false) brackets thread `t` has open. */
  function OpenBrackets(g: Kernel, t: int): nat
    requires t in g.threads
  {
    if Executing(g, t) then 0
    else match g.threads[t].pos
      case YieldTail => 1
      case LockTail(_) => 2
      case WaitTail(_, _) => 2
      case Gone => 1
      case _ => 0
  }

  /** A live thread is in the one place its control block and its position name. */
  ghost predicate LiveOk(g: Kernel, t: int)
    requires t in g.threads
  {
    && t in g.s.tcbs
    && t !in g.s.finished
    && var th, tcb := g.threads[t], g.s.tcbs[t];
    && (tcb.state.RUNNING? || tcb.state.READY? || tcb.state.WAITING?)
    && (tcb.state.RUNNING? <==> t == g.s.running)
    && (tcb.state.READY? <==> t in g.s.ready)
    && tcb.preemptionOn == 1 - OpenBrackets(g, t)
    && (if Executing(g, t) then (th.pos.User? || th.pos.Relock?) && !th.preempted
        else (th.preempted <==> th.pos.User? || th.pos.Relock?))
    && match th.pos
       case LockTail(m) =>
         && m in g.mutexes && m !in th.holds
         && (tcb.state.WAITING? <==> t in g.mutexes[m].waiting)
         && (!tcb.state.WAITING? ==> g.mutexes[m].owner == t)
       case WaitTail(c, m) =>
         && m in g.mutexes && c in g.conds
         && (tcb.state.WAITING? <==> t in g.conds[c])
       case Relock(m) => m in g.mutexes && !tcb.state.WAITING?
       case _ => !tcb.state.WAITING?
  }

  ghost predicate GoneOk(g: Kernel, t: int) {
    && t != g.s.running && t !in g.s.ready
    && (t in g.s.tcbs <==> t in g.s.finished)
    && (t in g.s.tcbs ==> g.s.tcbs[t].state == FINISHED && g.s.tcbs[t].preemptionOn == 0)
  }

  ghost predicate ThreadOk(g: Kernel, t: int)
    requires t in g.threads
  {
    && (if g.threads[t].pos.Gone? then GoneOk(g, t) else LiveOk(g, t))
    && forall m :: m in g.threads[t].holds ==> m in g.mutexes && g.mutexes[m].owner == t
  }

  predicate BlockedOn(g: Kernel, t: int, m: int) {
    Live(g, t) && g.threads[t].pos == LockTail(m) && g.s.tcbs[t].state.WAITING?
  }

  predicate HandedOff(g: Kernel, t: int, m: int) {
    Live(g, t) && g.threads[t].pos == LockTail(m) && !g.s.tcbs[t].state.WAITING?
  }

  predicate Asleep(g: Kernel, t: int, c: int) {
    Live(g, t) && g.threads[t].pos.WaitTail? && g.threads[t].pos.c == c && g.s.tcbs[t].state.WAITING?
  }

  ghost predicate MutexOk(g: Kernel, m: int)
    requires m in g.mutexes
  {
    var mx := g.mutexes[m];
    && NoDup(mx.waiting)
    && (forall t :: t in mx.waiting ==> BlockedOn(g, t, m))
    && (mx.waiting != [] ==> mx.owner != NO_OWNER)
    && (mx.owner != NO_OWNER ==>
        mx.owner > 0 && mx.owner in g.threads && (m in g.threads[mx.owner].holds || HandedOff(g, mx.owner, m)))
  }

  ghost predicate CondOk(g: Kernel, c: int)
    requires c in g.conds
  {
    NoDup(g.conds[c]) && forall t :: t in g.conds[c] ==> Asleep(g, t, c)
  }

  /** Ids are handed out in order and never reused.  The table may also hold blocks nobody has:
      number 0, made before the first thread, and those of numbers that were joined but not
      handed out. */
  ghost predicate Tables(g: Kernel) {
    && (forall t :: t in g.threads <==> 1 <= t <= g.s.counter)
    && (forall m :: m in g.mutexes <==> 1 <= m <= g.mutexSeq)
    && (forall c :: c in g.conds <==> 1 <= c <= g.condSeq)
    && Live(g, g.s.running)
  }

  ghost predicate Queues(g: Kernel) {
    && NoDup(g.s.ready) && NoDup(g.s.finished)
    && (forall t :: t in g.s.ready ==> Live(g, t))
    && (forall t :: t in g.s.finished ==> t in g.threads && g.threads[t].pos.Gone?)
  }

  /** The idle thread never blocks and never exits. */
  predicate IdleOk(g: Kernel) {
    IDLE in g.threads && (g.threads[IDLE].pos.Fresh? || g.threads[IDLE].pos.User? || g.threads[IDLE].pos.YieldTail?)
  }

  ghost predicate Base(g: Kernel) { !g.s.halted && Tables(g) && Queues(g) && IdleOk(g) }

  ghost predicate Inv(g: Kernel) {
    && Base(g)
    && (forall t :: t in g.threads ==> ThreadOk(g, t))
    && (forall m :: m in g.mutexes ==> MutexOk(g, m))
    && (forall c :: c in g.conds ==> CondOk(g, c))
  }

  /** nest_critical_cnt: one while switching, `depth` while a thread executes. */
  predicate NestIs(g: Kernel, depth: int) { g.s.nest == if g.resuming then 1 else depth }

  // ---- the kernel primitives in closed form -----------------------------------

  /** The scheduler after a context switch out of a thread that leaves `pre` in its counter. */
  function Switched(s: Sched, st: ThreadState, pre: int): Sched
    requires s.ready != [] && s.running in s.tcbs && s.ready[0] in s.tcbs
  {
    var curr, next := s.running, s.ready[0];
    s.(tcbs := s.tcbs[curr := s.tcbs[curr].(state := st, preemptionOn := pre)][next := s.tcbs[next].(state := RUNNING)],
       ready := if st == READY then s.ready[1..] + [curr] else s.ready[1..],
       finished := if st == FINISHED then s.finished + [curr] else s.finished,
       nest := 1, running := next)
  }

  predicate CanRun(s: Sched) {
    !s.halted && s.running in s.tcbs && s.tcbs[s.running].preemptionOn == 1
  }

  lemma Bracket(s: Sched)
    requires s.running in s.tcbs && s.tcbs[s.running].preemptionOn <= 1
    ensures SetPreemption(SetPreemption(s, false), true) == s
  {
    assert SetPreemption(SetPreemption(s, false), true).tcbs == s.tcbs;
  }

  /** Anything that leaves the running thread's block alone commutes with the bracket. */
  lemma BracketAround(s: Sched, tid: int)
    requires CanRun(s) && tid in s.tcbs && tid != s.running
    ensures SetPreemption(ResumeThread(SetPreemption(s, false), tid), true) == ResumeThread(s, tid)
  {
    assert SetPreemption(ResumeThread(SetPreemption(s, false), tid), true).tcbs == ResumeThread(s, tid).tcbs;
  }

  predicate CanSwitch(s: Sched) {
    && !s.halted && s.ready != [] && s.running in s.tcbs && s.ready[0] in s.tcbs && s.ready[0] != s.running
  }

  lemma SwitchForm(s: Sched, st: ThreadState)
    requires CanSwitch(s) && s.tcbs[s.running].preemptionOn <= 1 && s.nest == 0
    requires st == READY || st == WAITING || st == FINISHED
    ensures SwitchCurrentThreadTo(s, st) == SwitchResult(Switched(s, st, s.tcbs[s.running].preemptionOn - 1), true)
  {
    assert SwitchCurrentThreadTo(s, st).s.tcbs == Switched(s, st, s.tcbs[s.running].preemptionOn - 1).tcbs;
  }

  lemma InterruptForm(s: Sched)
    requires CanSwitch(s) && CanRun(s) && s.nest == 1
    ensures InInterruptYield(s) == SwitchResult(Switched(s, READY, 1), true)
  {
    assert InInterruptYield(s).s.tcbs == Switched(s, READY, 1).tcbs;
  }

  lemma LockForm(s: Sched, m: Mutex)
    requires CanRun(s) && s.nest == 0 && (m.IsLocked() && m.owner != s.running ==> CanSwitch(s))
    ensures Lock(s, m) ==
      if !m.IsLocked() then LockResult(s, m.(owner := s.running), false)
      else if m.owner == s.running then LockResult(s, m, false)
      else LockResult(Switched(s, WAITING, -1), m.(waiting := m.waiting + [s.running]), true)
  {
    Bracket(s);
    if m.IsLocked() && m.owner != s.running {
      SwitchInBracket(s);
    }
  }

  lemma UnlockForm(s: Sched, m: Mutex)
    requires CanRun(s) && s.running == m.owner
    requires m.waiting != [] ==> m.waiting[0] in s.tcbs && m.waiting[0] != s.running
    ensures Unlock(s, m) ==
      if m.waiting == [] then UnlockResult(s, m.(owner := NO_OWNER))
      else UnlockResult(ResumeThread(s, m.waiting[0]), Mutex(m.waiting[0], m.waiting[1..]))
  {
    Bracket(s);
    if m.waiting != [] { BracketAround(s, m.waiting[0]); }
  }

  lemma NotifyForm(s: Sched, c: seq<int>)
    requires CanRun(s) && (c != [] ==> c[0] in s.tcbs && c[0] != s.running)
    ensures NotifyOne(s, c) == if c == [] then NotifyResult(s, c) else NotifyResult(ResumeThread(s, c[0]), c[1..])
  {
    Bracket(s);
    if c != [] { BracketAround(s, c[0]); }
  }

  /** Inside an open bracket unlock does the same, and leaves the bracket open. */
  lemma UnlockInBracket(s: Sched, m: Mutex)
    requires CanRun(s) && s.running == m.owner
    requires m.waiting != [] ==> m.waiting[0] in s.tcbs && m.waiting[0] != s.running
    ensures Unlock(SetPreemption(s, false), m) ==
      UnlockResult(SetPreemption(Unlock(s, m).s, false), Unlock(s, m).m)
  {
    var s1 := SetPreemption(s, false);
    Bracket(s1);
    UnlockForm(s, m);
    if m.waiting != [] {
      var t := m.waiting[0];
      assert SetPreemption(ResumeThread(SetPreemption(s1, false), t), true).tcbs
          == SetPreemption(ResumeThread(s, t), false).tcbs;
    }
  }

  lemma SwitchInBracket(s: Sched)
    requires CanRun(s) && CanSwitch(s) && s.nest == 0
    ensures SwitchCurrentThreadTo(SetPreemption(s, false), WAITING) == SwitchResult(Switched(s, WAITING, -1), true)
  {
    var s1 := SetPreemption(s, false);
    SwitchForm(s1, WAITING);
    assert Switched(s1, WAITING, -1).tcbs == Switched(s, WAITING, -1).tcbs;
  }

  lemma WaitForm(s: Sched, c: seq<int>, m: Mutex)
    requires CanRun(s) && s.nest == 0 && s.running == m.owner && CanSwitch(s)
    requires m.waiting != [] ==> m.waiting[0] in s.tcbs && m.waiting[0] != s.running
    ensures var u := Unlock(s, m);
      CanSwitch(u.s) && Wait(s, c, m) == WaitResult(Switched(u.s, WAITING, -1), c + [s.running], u.m, true)
  {
    UnlockForm(s, m);
    UnlockInBracket(s, m);
    SwitchInBracket(Unlock(s, m).s);
  }

  lemma CreateForm(s: Sched, mtx: int, cond: int)
    requires CanRun(s) && s.running != s.counter + 1
    ensures CreateThread(s, mtx, cond) ==
      var id := s.counter + 1;
      s.(counter := id, tcbs := s.tcbs[id := Tcb(READY, 1, mtx, cond)], ready := s.ready + [id])
  {
    var id := s.counter + 1;
    assert CreateThread(s, mtx, cond).tcbs == s.tcbs[id := Tcb(READY, 1, mtx, cond)];
  }
}
