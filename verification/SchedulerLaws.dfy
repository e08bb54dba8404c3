/** What the calls of the scheduler do to the fields, also where the kernel never lets it come to
    that: the asserts, unknown threads, and unlocking what one does not own. */
module SchedulerLaws {
  import opened SchedulerSpec
  import opened KernelInvariant

  /** Interrupts are on exactly when every disable has been undone; enabling more often than that
      does not count. */
  lemma CriticalSections(nest: int)
    ensures EnableInterrupts(DisableInterrupts(nest)) == (if nest < 0 then 0 else nest)
    ensures DisableInterrupts(nest) >= 1 && EnableInterrupts(nest) >= 0
    ensures EnableInterrupts(nest) == 0 <==> nest <= 1
    ensures nest > 0 ==> EnableInterrupts(nest) == nest - 1
  {
  }

  /** The counter of the running thread moves by one, nothing else does, and passing 1 stops the
      kernel. */
  lemma PreemptionMoves(s: Sched, on: bool)
    requires s.running in s.tcbs
    ensures var t, count := SetPreemption(s, on), s.tcbs[s.running].preemptionOn;
      && t.tcbs.Keys == s.tcbs.Keys && t == s.(tcbs := t.tcbs, halted := t.halted)
      && t.tcbs[s.running] == s.tcbs[s.running].(preemptionOn := if on then count + 1 else count - 1)
      && (forall i :: i in s.tcbs && i != s.running ==> t.tcbs[i] == s.tcbs[i])
      && (t.halted <==> s.halted || (if on then count > 0 else count > 2))
  {
  }

  /** The asserts of a voluntary switch: the next thread is another one, and the caller has
      forbidden preemption at most once. */
  lemma SwitchAsserts(s: Sched, st: ThreadState)
    requires !s.halted && s.running in s.tcbs && s.ready != [] && s.ready[0] in s.tcbs
    requires st == READY || st == WAITING || st == FINISHED
    ensures var r := SwitchCurrentThreadTo(s, st);
      && r.switched && r.s.running == s.ready[0] && r.s.tcbs[s.ready[0]].state == RUNNING
      && (r.s.halted <==> s.running == s.ready[0] || s.tcbs[s.running].preemptionOn > 1)
  {
  }

  /** With nobody ready, or to a state that gives nothing up, there is no switch and no change. */
  lemma NoSwitch(s: Sched, st: ThreadState)
    requires s.running in s.tcbs && s.tcbs[s.running].preemptionOn <= 1
    requires s.ready == [] || st == INIT || st == RUNNING || st == UNKNOWN
    ensures SwitchCurrentThreadTo(s, st) == SwitchResult(s, false)
  {
    Bracket(s);
  }

  /** The handler switches exactly if the running thread allows it and somebody is ready; a
      running thread without a block stops the kernel, unless there is no block at all. */
  lemma HandlerYields(s: Sched)
    ensures var r := InInterruptYield(s);
      && (s.tcbs == map[] ==> r == SwitchResult(s, false))
      && (s.tcbs != map[] && s.running !in s.tcbs ==> r == SwitchResult(s.(halted := true), false))
      && (s.running in s.tcbs ==> (r.switched <==> s.tcbs[s.running].preemptionOn > 0 && s.ready != []))
      && (s.running in s.tcbs && !r.switched ==> r.s == s)
      && (r.switched ==> r.s.running == s.ready[0] && r.s.ready == s.ready[1..] + [s.running]
                         && (r.s.halted <==> s.halted || s.running == s.ready[0]))
  {
  }

  /** A thread with a block becomes ready behind the others; one without is ignored. */
  lemma Resumed(s: Sched, tid: int)
    ensures tid !in s.tcbs ==> ResumeThread(s, tid) == s
    ensures tid in s.tcbs ==>
      var t := ResumeThread(s, tid);
      && t.ready == s.ready + [tid] && t == s.(ready := t.ready, tcbs := t.tcbs) && t.tcbs.Keys == s.tcbs.Keys
      && t.tcbs[tid] == s.tcbs[tid].(state := READY) && forall i :: i in s.tcbs && i != tid ==> t.tcbs[i] == s.tcbs[i]
  {
  }

  /** What a thread reads as. */
  lemma StateRead(s: Sched, tid: int)
    ensures GetThreadState(s, tid) ==
      if !(0 <= tid <= s.counter) then UNKNOWN else if tid in s.tcbs then s.tcbs[tid].state else FINISHED
  {
  }

  /** Unlocking a mutex of another thread does nothing if nobody waits. */
  lemma UnlockOfOther(s: Sched, m: Mutex)
    requires CanRun(s) && m.waiting == [] && m.owner != s.running
    ensures Unlock(s, m) == UnlockResult(s, m)
  {
    Bracket(s);
  }

  /** A mutex that is taken cannot be taken again by trying, and a free one can. */
  lemma Tried(s: Sched, m: Mutex)
    requires CanRun(s)
    ensures TryLock(s, m) == if m.owner >= 0 then TryLockResult(s, m, false) else TryLockResult(s, Mutex(s.running, m.waiting), true)
  {
    Bracket(s);
  }

  /** notifyAll makes all that wait ready, in the order in which they came. */
  lemma {:induction false} AllNotified(s: Sched, c: seq<int>)
    requires CanRun(s) && forall t :: t in c ==> t in s.tcbs && t != s.running
    ensures var r := NotifyAll(s, c);
      && r.ready == s.ready + c && r == s.(ready := r.ready, tcbs := r.tcbs) && r.tcbs.Keys == s.tcbs.Keys
      && forall t :: t in s.tcbs ==> r.tcbs[t] == if t in c then s.tcbs[t].(state := READY) else s.tcbs[t]
    decreases |c|
  {
    if c == [] {
      assert s.ready + c == s.ready;
    } else {
      var s1 := ResumeThread(s, c[0]);
      assert c[0] in c && forall t :: t in c[1..] ==> t in c;
      NotifyForm(s, c);
      Resumed(s, c[0]);
      forall t | t in c[1..] ensures t in s1.tcbs && t != s1.running { assert t in c; }
      AllNotified(s1, c[1..]);
      assert s1.ready + c[1..] == s.ready + c;
      assert c == [c[0]] + c[1..];
    }
  }

  /** The first ready thread starts; with none nothing does. */
  lemma Launched(s: Sched)
    ensures s.ready == [] ==> LaunchFirstTask(s) == SwitchResult(s, false)
    ensures s.ready != [] ==>
      var r := LaunchFirstTask(s);
      r.switched && r.s.running == s.ready[0] && r.s.ready == s.ready[1..] && s.ready[0] in r.s.tcbs
      && r.s.tcbs[s.ready[0]].state == RUNNING
  {
  }
}
