/** What becomes of a join whose target has been reclaimed or was never created. */
module KernelJoins {
  import opened SchedulerSpec
  import opened Kernel
  import opened KernelInvariant
  import opened KernelSteps
  import opened KernelRuns
  import opened KernelReach

  /** A thread that executes its own code, and is not the idle thread. */
  predicate CanCall(g: Kernel) { Acting(g) && NestIs(g, 0) && Me(g).pos.User? && g.s.running != IDLE }

  lemma CallerReady(g: Kernel)
    requires Inv(g) && CanCall(g)
    ensures CanRun(g.s) && CanSwitch(g.s) && NoDup(g.s.ready) && g.s.running !in g.s.ready
  {
    CanRunNow(g);
    ReadyNeverEmpty(g);
    assert ThreadOk(g, g.s.running);
  }

  /** The target has no block.  operator[] makes one, with -1 for both handles, and -1 gets a new
      mutex and a condition of its own, on which `others` may be waiting already. */
  predicate JoinsNobody(s: Sched, tid: int) { var b := JoinEntry(s, tid).tcbs[tid]; b.mtxForJoin == -1 && b.condForJoin == -1 }

  /** join of a reclaimed thread: the lock succeeds, the target reads as not yet started, and
      wait gives the lock back and suspends the caller, on a condition that belongs to no
      thread. */
  lemma JoinOfReclaimed(gs: seq<Kernel>, steps: seq<Step>, i: nat, tid: int, others: seq<int>)
    requires IsRun(gs, steps) && i < |gs| && CanCall(gs[i]) && tid in gs[i].threads && tid !in gs[i].s.tcbs
    ensures var s := gs[i].s; var l := Lock(JoinEntry(s, tid), FRESH_MUTEX);
      && JoinsNobody(s, tid) && !l.switched && l.m.owner == s.running && GetThreadState(l.s, tid) == INIT
      && var w := Wait(l.s, others, l.m);
         && w.switched && w.c == others + [s.running] && w.m == FRESH_MUTEX
         && w.s.running == s.ready[0] && s.running !in w.s.ready
         && w.s.tcbs[s.running].state == WAITING && GetThreadState(w.s, tid) == INIT
  {
    RunInv(gs, steps, i);
    CallerReady(gs[i]);
    var s := JoinEntry(gs[i].s, tid);
    EntersAndWaits(s, others);
    LeftWaiting(s, tid);
  }

  lemma LeftWaiting(s: Sched, tid: int)
    requires CanSwitch(s) && s.running !in s.ready && tid in s.tcbs && tid != s.running && tid != s.ready[0]
    ensures var w := Switched(s, WAITING, -1);
      && w.running == s.ready[0] && s.running !in w.ready && w.tcbs[s.running].state == WAITING
      && GetThreadState(w, tid) == GetThreadState(s, tid)
  {
  }

  /** Lock and wait with a mutex nobody else has used. */
  lemma EntersAndWaits(s: Sched, others: seq<int>)
    requires CanRun(s) && CanSwitch(s) && s.nest == 0
    ensures Lock(s, FRESH_MUTEX) == LockResult(s, Mutex(s.running, []), false)
    ensures Wait(s, others, Mutex(s.running, [])) == WaitResult(Switched(s, WAITING, -1), others + [s.running], FRESH_MUTEX, true)
  {
    LockForm(s, FRESH_MUTEX);
    UnlockForm(s, Mutex(s.running, []));
    WaitForm(s, others, Mutex(s.running, []));
  }

  /** join of an id never handed out: the lock succeeds, and the assert that the target is known
      fails. */
  lemma JoinOfUnknown(gs: seq<Kernel>, steps: seq<Step>, i: nat, tid: int)
    requires IsRun(gs, steps) && i < |gs| && CanCall(gs[i]) && tid !in gs[i].s.tcbs && (tid < 0 || tid > gs[i].s.counter)
    ensures var s := gs[i].s; var l := Lock(JoinEntry(s, tid), FRESH_MUTEX);
      JoinsNobody(s, tid) && !l.switched && l.m.owner == s.running && GetThreadState(l.s, tid) == UNKNOWN
  {
    RunInv(gs, steps, i);
    CallerReady(gs[i]);
    LockForm(JoinEntry(gs[i].s, tid), FRESH_MUTEX);
  }

  /** There is a run in which a thread can join another that has been reclaimed; it finds it in
      its initial state. */
  lemma JoinAfterReclaim() returns (g: Kernel)
    ensures Reached(g) && CanCall(g) && 2 in g.threads && 2 !in g.s.tcbs
    ensures GetThreadState(g.s, 2) == FINISHED && GetThreadState(JoinEntry(g.s, 2), 2) == INIT
  {
    ThirdReached(SecondGone());
    ReachedNext(ThirdRuns(), ReclaimStep);
    g := Apply(ThirdRuns(), ReclaimStep);
  }
}
