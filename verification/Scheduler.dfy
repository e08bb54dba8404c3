/** The kernel objects in their imperative form.  Every method is proved to take the
    fields to exactly the value the functions of SchedulerSpec give; what those values
    satisfy over whole runs is proved in KernelTheorems.

    A method that contains a context switch ends at it: `switched` says whether control
    has left the thread, and the matching ...Return method is what the thread executes
    when it is switched back in. */
module Scheduler {
  import Spec = SchedulerSpec
  import opened SchedulerSpec

  ghost function Elements(q: seq<int>): set<int> { set t | t in q }

  /** nest_critical_cnt and the functions of utils.c around it. */
  class CriticalSection {
    var nestCriticalCnt: int

    constructor ()
      ensures nestCriticalCnt == 0
    {
      nestCriticalCnt := 0;
    }

    method IncreaseNestCriticalCount()
      modifies this
      ensures nestCriticalCnt == old(nestCriticalCnt) + 1
    {
      nestCriticalCnt := nestCriticalCnt + 1;
    }

    method DecreaseNestCriticalCount()
      modifies this
      ensures nestCriticalCnt == old(nestCriticalCnt) - 1
    {
      nestCriticalCnt := nestCriticalCnt - 1;
    }

    method IsCriticalBound() returns (bound: bool)
      modifies this
      ensures nestCriticalCnt == Spec.Clamp(old(nestCriticalCnt)) && bound == (old(nestCriticalCnt) <= 0)
    {
      if nestCriticalCnt < 0 { nestCriticalCnt := 0; }
      bound := nestCriticalCnt == 0;
    }

    /** `on` tells whether the CPU's interrupt enable bit is set by this call. */
    method EnableInterrupts() returns (on: bool)
      modifies this
      ensures nestCriticalCnt == Spec.EnableInterrupts(old(nestCriticalCnt)) && on == (nestCriticalCnt == 0)
    {
      DecreaseNestCriticalCount();
      on := IsCriticalBound();
    }

    method DisableInterrupts() returns (off: bool)
      modifies this
      ensures nestCriticalCnt == Spec.DisableInterrupts(old(nestCriticalCnt)) && off == (nestCriticalCnt == 1)
    {
      off := IsCriticalBound();
      IncreaseNestCriticalCount();
    }
  }

  class ThreadScheduler {
    var runningThreadId: int
    var threadCounter: nat
    var readyList: seq<int>
    var finishedList: seq<int>
    var idTcbMap: map<int, Tcb>
    var halted: bool                   // a failed assert spins for ever
    const gate: CriticalSection

    ghost function View(): Sched
      reads this, gate
    {
      Sched(runningThreadId, threadCounter, readyList, finishedList, idTcbMap, gate.nestCriticalCnt, halted)
    }

    constructor (gate: CriticalSection)
      ensures this.gate == gate
      ensures View() == Sched(0, 0, [], [], map[], gate.nestCriticalCnt, false)
    {
      this.gate := gate;
      runningThreadId, threadCounter, readyList, finishedList := 0, 0, [], [];
      idTcbMap, halted := map[], false;
    }

    method Assert(holds: bool)
      modifies this`halted
      ensures halted == (old(halted) || !holds)
    {
      if !holds { halted := true; }
    }

    /** operator[] */
    method Find(id: int) returns (tcb: Tcb)
      modifies this`idTcbMap
      ensures tcb == Lookup(old(idTcbMap), id) && idTcbMap == old(idTcbMap)[id := tcb]
    {
      if id !in idTcbMap { idTcbMap := idTcbMap[id := DEFAULT_TCB]; }
      tcb := idTcbMap[id];
      assert idTcbMap == old(idTcbMap)[id := tcb];
    }

    method SetPreemption(on: bool)
      modifies this`idTcbMap, this`halted
      ensures View() == Spec.SetPreemption(old(View()), on)
    {
      var tcb := Find(runningThreadId);
      if on {
        tcb := tcb.(preemptionOn := tcb.preemptionOn + 1);
      } else {
        tcb := tcb.(preemptionOn := tcb.preemptionOn - 1);
      }
      idTcbMap := idTcbMap[runningThreadId := tcb];
      Assert(tcb.preemptionOn <= 1);
      assert View().tcbs == Spec.SetPreemption(old(View()), on).tcbs;
    }

    method SetThreadState(id: int, st: ThreadState)
      modifies this`idTcbMap
      ensures idTcbMap == SetState(old(idTcbMap), id, st)
    {
      var tcb := Find(id);
      idTcbMap := idTcbMap[id := tcb.(state := st)];
    }

    method AllowPreemption() returns (allowed: bool)
      modifies this`halted
      ensures halted == (old(halted) || TableMiss(old(View())))
      ensures !TableMiss(View()) ==> allowed == Spec.AllowPreemption(View())
    {
      if |idTcbMap| == 0 { return false; }
      Assert(runningThreadId in idTcbMap);
      allowed := runningThreadId in idTcbMap && idTcbMap[runningThreadId].preemptionOn > 0;
    }

    method Create(mtx: int, cond: int) returns (id: int)
      modifies this
      ensures View() == CreateThread(old(View()), mtx, cond) && id == View().counter
    {
      SetPreemption(false);
      threadCounter := threadCounter + 1;
      id := threadCounter;
      idTcbMap := idTcbMap[id := DEFAULT_TCB];
      idTcbMap := idTcbMap[id := Tcb(READY, 1, mtx, cond)];
      readyList := readyList + [id];
      SetPreemption(true);
      assert View().tcbs == CreateThread(old(View()), mtx, cond).tcbs;
    }

    method LaunchFirstTask() returns (launched: bool)
      modifies this
      ensures Spec.LaunchFirstTask(old(View())) == SwitchResult(View(), launched)
    {
      if readyList == [] { return false; }
      var chosen := readyList[0];
      readyList := readyList[1..];
      SetThreadState(chosen, RUNNING);
      runningThreadId := chosen;
      launched := true;
    }

    method DebugContextSwitchInfo(curr: int, next: int, preemption: bool)
      modifies this`halted
      ensures halted == (old(halted) || curr == next
                         || (!preemption && (TableMiss(old(View())) || Spec.AllowPreemption(old(View())))))
    {
      Assert(curr != next);
      if !preemption {
        var allowed := AllowPreemption();
        if allowed { Assert(false); }
      }
    }

    method SwitchCurrentThreadTo(st: ThreadState) returns (switched: bool)
      modifies this, gate
      ensures Spec.SwitchCurrentThreadTo(old(View()), st) == SwitchResult(View(), switched)
    {
      SetPreemption(false);
      if (st != READY && st != WAITING && st != FINISHED) || readyList == [] {
        SetPreemption(true);
        return false;
      }
      var curr, next := runningThreadId, readyList[0];
      readyList := readyList[1..];
      Assert(curr != next);
      SetThreadState(curr, st);
      SetThreadState(next, RUNNING);
      if st == READY {
        readyList := readyList + [curr];
      } else if st == FINISHED {
        finishedList := finishedList + [curr];
      }
      DebugContextSwitchInfo(curr, next, false);
      var _ := gate.DisableInterrupts();
      runningThreadId := next;
      switched := true;
    }

    method SwitchReturn()
      modifies this, gate
      ensures View() == Spec.SwitchReturn(old(View()))
    {
      var _ := gate.EnableInterrupts();
      SetPreemption(true);
    }

    method InInterruptYield() returns (switched: bool)
      modifies this
      ensures Spec.InInterruptYield(old(View())) == SwitchResult(View(), switched)
    {
      var missing := |idTcbMap| != 0 && runningThreadId !in idTcbMap;
      var allowed := AllowPreemption();
      if missing || !allowed || readyList == [] { return false; }
      var curr, next := runningThreadId, readyList[0];
      readyList := readyList[1..];
      SetThreadState(curr, READY);
      SetThreadState(next, RUNNING);
      readyList := readyList + [curr];
      DebugContextSwitchInfo(curr, next, true);
      runningThreadId := next;
      switched := true;
    }

    method Resume(tid: int)
      modifies this
      ensures View() == ResumeThread(old(View()), tid)
    {
      if tid in idTcbMap {
        SetThreadState(tid, READY);
        readyList := readyList + [tid];
      }
    }

    method ClearFinishedList()
      modifies this
      ensures View() == Reclaim(old(View()))
    {
      var i := 0;
      while i < |finishedList|
        invariant 0 <= i <= |finishedList| && View() == old(View()).(tcbs := View().tcbs)
        invariant idTcbMap == old(idTcbMap) - Elements(finishedList[..i])
      {
        idTcbMap := idTcbMap - {finishedList[i]};
        assert finishedList[..i + 1] == finishedList[..i] + [finishedList[i]];
        assert Elements(finishedList[..i + 1]) == Elements(finishedList[..i]) + {finishedList[i]};
        i := i + 1;
      }
      assert Elements(finishedList[..i]) == set t | t in finishedList;
      finishedList := [];
    }

    method ThreadStateOf(tid: int) returns (st: ThreadState)
      ensures st == GetThreadState(View(), tid)
    {
      if tid < 0 || tid > threadCounter { return UNKNOWN; }
      st := if tid in idTcbMap then idTcbMap[tid].state else FINISHED;
    }

    /** The handles join reads before it locks. */
    method JoinHandles(tid: int) returns (mtx: int, cond: int)
      modifies this`idTcbMap
      ensures View() == JoinEntry(old(View()), tid)
      ensures mtx == Lookup(old(idTcbMap), tid).mtxForJoin && cond == Lookup(old(idTcbMap), tid).condForJoin
    {
      var a := Find(tid);
      mtx := a.mtxForJoin;
      var b := Find(tid);
      cond := b.condForJoin;
      assert idTcbMap == old(idTcbMap)[tid := a];
    }
  }

  class MutexInternal {
    var owner: int
    var waitingList: seq<int>
    const sched: ThreadScheduler

    ghost function View(): Mutex
      reads this
    {
      Mutex(owner, waitingList)
    }

    constructor (sched: ThreadScheduler)
      ensures View() == FRESH_MUTEX && this.sched == sched
    {
      owner, waitingList := -1, [];
      this.sched := sched;
    }

    method TryLock() returns (acquired: bool)
      modifies this, sched
      ensures Spec.TryLock(old(sched.View()), old(View())) == TryLockResult(sched.View(), View(), acquired)
    {
      sched.SetPreemption(false);
      if owner >= 0 {
        acquired := false;
      } else {
        owner := sched.runningThreadId;
        acquired := true;
      }
      sched.SetPreemption(true);
    }

    method Lock() returns (switched: bool)
      modifies this, sched, sched.gate
      ensures Spec.Lock(old(sched.View()), old(View())) == LockResult(sched.View(), View(), switched)
    {
      switched := false;
      sched.SetPreemption(false);
      if owner >= 0 {
        if sched.runningThreadId != owner {
          waitingList := waitingList + [sched.runningThreadId];
          switched := sched.SwitchCurrentThreadTo(WAITING);
          if switched { return; }
        }
      } else {
        owner := sched.runningThreadId;
      }
      sched.SetPreemption(true);
    }

    method LockReturn()
      modifies sched, sched.gate
      ensures sched.View() == Spec.LockReturn(old(sched.View()))
    {
      sched.SwitchReturn();
      sched.SetPreemption(true);
    }

    method Unlock()
      modifies this, sched
      ensures Spec.Unlock(old(sched.View()), old(View())) == UnlockResult(sched.View(), View())
    {
      sched.SetPreemption(false);
      if waitingList == [] {
        if sched.runningThreadId == owner { owner := -1; }
      } else {
        owner := waitingList[0];
        waitingList := waitingList[1..];
        sched.Resume(owner);
      }
      sched.SetPreemption(true);
    }
  }

  class ConditionVariableInternal {
    var waitingList: seq<int>
    const sched: ThreadScheduler

    constructor (sched: ThreadScheduler)
      ensures waitingList == [] && this.sched == sched
    {
      waitingList := [];
      this.sched := sched;
    }

    method Wait(m: MutexInternal) returns (switched: bool)
      requires m.sched == sched
      modifies this, m, sched, sched.gate
      ensures Spec.Wait(old(sched.View()), old(waitingList), old(m.View()))
           == WaitResult(sched.View(), waitingList, m.View(), switched)
    {
      sched.SetPreemption(false);
      m.Unlock();
      waitingList := waitingList + [sched.runningThreadId];
      switched := sched.SwitchCurrentThreadTo(WAITING);
      if !switched { sched.SetPreemption(true); }
    }

    method WaitReturn()
      modifies sched, sched.gate
      ensures sched.View() == Spec.WaitReturn(old(sched.View()))
    {
      sched.SwitchReturn();
      sched.SetPreemption(true);
    }

    method NotifyOne()
      modifies this, sched
      ensures Spec.NotifyOne(old(sched.View()), old(waitingList)) == NotifyResult(sched.View(), waitingList)
    {
      sched.SetPreemption(false);
      if waitingList != [] {
        var tid := waitingList[0];
        waitingList := waitingList[1..];
        sched.Resume(tid);
      }
      sched.SetPreemption(true);
    }

    /** notifyAll with no preemption between its rounds, as in the timer interrupt. */
    method NotifyAll()
      modifies this, sched
      ensures waitingList == [] && sched.View() == Spec.NotifyAll(old(sched.View()), old(waitingList))
    {
      while waitingList != []
        invariant Spec.NotifyAll(old(sched.View()), old(waitingList)) == Spec.NotifyAll(sched.View(), waitingList)
        decreases |waitingList|
      {
        NotifyOne();
      }
    }
  }
}
