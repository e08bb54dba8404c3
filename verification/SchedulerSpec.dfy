/** The FlitOS thread scheduler, mutex and condition variable as functions on values.

    Every function here says what one stretch of kernel code does to the data it
    owns.  A stretch runs up to the context switch inside it, or, for the functions
    whose name ends in Return, from the point where the thread is switched back in.
    The classes in Scheduler.dfy are the imperative form and are proved to compute
    exactly these functions; KernelInvariant.dfy proves what the functions keep. */
module SchedulerSpec {

  datatype ThreadState = INIT | READY | RUNNING | WAITING | FINISHED | UNKNOWN

  /** The fields of a thread control block that the scheduler reads or writes. */
  datatype Tcb = Tcb(state: ThreadState, preemptionOn: int, mtxForJoin: int, condForJoin: int)

  const DEFAULT_TCB := Tcb(INIT, 1, -1, -1)
  const NO_OWNER := -1

  /** `nest` is the global nest_critical_cnt.  `halted` records that a failed assert
      was reached: the kernel's assert macro spins for ever. */
  datatype Sched = Sched(
    running: int, counter: nat, ready: seq<int>, finished: seq<int>,
    tcbs: map<int, Tcb>, nest: int, halted: bool)

  datatype Mutex = Mutex(owner: int, waiting: seq<int>) {
    predicate IsLocked() { owner >= 0 }
  }

  const FRESH_MUTEX := Mutex(NO_OWNER, [])

  datatype SwitchResult = SwitchResult(s: Sched, switched: bool)
  datatype LockResult = LockResult(s: Sched, m: Mutex, switched: bool)
  datatype TryLockResult = TryLockResult(s: Sched, m: Mutex, acquired: bool)
  datatype UnlockResult = UnlockResult(s: Sched, m: Mutex)
  datatype WaitResult = WaitResult(s: Sched, c: seq<int>, m: Mutex, switched: bool)
  datatype NotifyResult = NotifyResult(s: Sched, c: seq<int>)

  // ---- the critical-section counter -------------------------------------------

  /** isCriticalBound clamps a negative counter to zero. */
  function Clamp(nest: int): int { if nest < 0 then 0 else nest }

  function EnableInterrupts(nest: int): int { Clamp(nest - 1) }

  function DisableInterrupts(nest: int): int { Clamp(nest) + 1 }

  // ---- the thread table -------------------------------------------------------

  /** operator[] of the table inserts a default block for a missing key. */
  function Lookup(tcbs: map<int, Tcb>, id: int): Tcb {
    if id in tcbs then tcbs[id] else DEFAULT_TCB
  }

  function SetState(tcbs: map<int, Tcb>, id: int, st: ThreadState): map<int, Tcb> {
    tcbs[id := Lookup(tcbs, id).(state := st)]
  }

  function Bump(t: Tcb, on: bool): Tcb {
    t.(preemptionOn := if on then t.preemptionOn + 1 else t.preemptionOn - 1)
  }

  function SetPreemption(s: Sched, on: bool): Sched {
    var t := Bump(Lookup(s.tcbs, s.running), on);
    s.(tcbs := s.tcbs[s.running := t], halted := s.halted || t.preemptionOn > 1)
  }

  /** allowPreemption reaches the block through at(), which asserts presence. */
  predicate AllowPreemption(s: Sched) {
    |s.tcbs| != 0 && Lookup(s.tcbs, s.running).preemptionOn > 0
  }

  predicate TableMiss(s: Sched) { |s.tcbs| != 0 && s.running !in s.tcbs }

  function GetThreadState(s: Sched, tid: int): ThreadState {
    if tid < 0 || tid > s.counter then UNKNOWN
    else if tid !in s.tcbs then FINISHED
    else s.tcbs[tid].state
  }

  // ---- scheduler --------------------------------------------------------------

  function CreateThread(s: Sched, mtx: int, cond: int): Sched {
    var s1 := SetPreemption(s, false);
    var id := s1.counter + 1;
    SetPreemption(
      s1.(counter := id, tcbs := s1.tcbs[id := Tcb(READY, 1, mtx, cond)], ready := s1.ready + [id]),
      true)
  }

  function LaunchFirstTask(s: Sched): SwitchResult {
    if s.ready == [] then SwitchResult(s, false)
    else
      var id := s.ready[0];
      SwitchResult(s.(ready := s.ready[1..], tcbs := SetState(s.tcbs, id, RUNNING), running := id), true)
  }

  /** The part common to both context switches: the running thread gets state `st`
      and the front of the ready list becomes the running thread. */
  function Rotate(s: Sched, st: ThreadState): Sched
    requires s.ready != []
  {
    var curr, next := s.running, s.ready[0];
    s.(tcbs := SetState(SetState(s.tcbs, curr, st), next, RUNNING),
       ready := if st == READY then s.ready[1..] + [curr] else s.ready[1..],
       finished := if st == FINISHED then s.finished + [curr] else s.finished)
  }

  /** switchCurrentThreadTo up to thread_switch.  When it does not switch, it has
      already returned. */
  function SwitchCurrentThreadTo(s: Sched, st: ThreadState): SwitchResult {
    var s1 := SetPreemption(s, false);
    if (st != READY && st != WAITING && st != FINISHED) || s1.ready == [] then
      SwitchResult(SetPreemption(s1, true), false)
    else
      var next := s1.ready[0];
      var s2 := Rotate(s1, st);
      var failed := s1.running == next || TableMiss(s2) || AllowPreemption(s2);
      SwitchResult(s2.(halted := s2.halted || failed, nest := DisableInterrupts(s2.nest), running := next), true)
  }

  /** switchCurrentThreadTo from thread_switch on. */
  function SwitchReturn(s: Sched): Sched {
    SetPreemption(s.(nest := EnableInterrupts(s.nest)), true)
  }

  function InInterruptYield(s: Sched): SwitchResult {
    if TableMiss(s) then SwitchResult(s.(halted := true), false)
    else if !AllowPreemption(s) || s.ready == [] then SwitchResult(s, false)
    else
      var next := s.ready[0];
      var s1 := Rotate(s, READY);
      SwitchResult(s1.(halted := s1.halted || s.running == next, running := next), true)
  }

  function ResumeThread(s: Sched, tid: int): Sched {
    if tid in s.tcbs then s.(tcbs := SetState(s.tcbs, tid, READY), ready := s.ready + [tid]) else s
  }

  function Reclaim(s: Sched): Sched {
    s.(tcbs := s.tcbs - (set t | t in s.finished), finished := [])
  }

  /** The first two lines of join: both read the block through operator[]. */
  function JoinEntry(s: Sched, tid: int): Sched {
    s.(tcbs := s.tcbs[tid := Lookup(s.tcbs, tid)])
  }

  // ---- mutex ------------------------------------------------------------------

  function TryLock(s: Sched, m: Mutex): TryLockResult {
    var s1 := SetPreemption(s, false);
    TryLockResult(SetPreemption(s1, true), if m.IsLocked() then m else m.(owner := s1.running), !m.IsLocked())
  }

  /** lock, up to the suspend inside it. */
  function Lock(s: Sched, m: Mutex): LockResult {
    var s1 := SetPreemption(s, false);
    if !m.IsLocked() then
      LockResult(SetPreemption(s1, true), m.(owner := s1.running), false)
    else if s1.running == m.owner then
      LockResult(SetPreemption(s1, true), m, false)
    else
      var m1 := m.(waiting := m.waiting + [s1.running]);
      var sw := SwitchCurrentThreadTo(s1, WAITING);
      if sw.switched then LockResult(sw.s, m1, true) else LockResult(SetPreemption(sw.s, true), m1, false)
  }

  function LockReturn(s: Sched): Sched { SetPreemption(SwitchReturn(s), true) }

  function Unlock(s: Sched, m: Mutex): UnlockResult {
    var s1 := SetPreemption(s, false);
    if m.waiting == [] then
      UnlockResult(SetPreemption(s1, true), if s1.running == m.owner then m.(owner := NO_OWNER) else m)
    else
      UnlockResult(SetPreemption(ResumeThread(s1, m.waiting[0]), true), Mutex(m.waiting[0], m.waiting[1..]))
  }

  // ---- condition variable -----------------------------------------------------

  /** wait, up to the suspend inside it; the final lock of wait is a separate call. */
  function Wait(s: Sched, c: seq<int>, m: Mutex): WaitResult {
    var u := Unlock(SetPreemption(s, false), m);
    var c1 := c + [u.s.running];
    var sw := SwitchCurrentThreadTo(u.s, WAITING);
    WaitResult(if sw.switched then sw.s else SetPreemption(sw.s, true), c1, u.m, sw.switched)
  }

  function WaitReturn(s: Sched): Sched { SetPreemption(SwitchReturn(s), true) }

  function NotifyOne(s: Sched, c: seq<int>): NotifyResult {
    var s1 := SetPreemption(s, false);
    if c == [] then NotifyResult(SetPreemption(s1, true), c)
    else NotifyResult(SetPreemption(ResumeThread(s1, c[0]), true), c[1..])
  }

  /** notifyAll with nothing running in between, as in the timer interrupt. */
  function NotifyAll(s: Sched, c: seq<int>): Sched
    decreases |c|
  {
    if c == [] then s else NotifyAll(NotifyOne(s, c).s, c[1..])
  }
}
