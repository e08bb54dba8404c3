/** What callers of join and sleep can rely on, in every interleaving. */
module JoinSleep {
  import opened SchedulerSpec
  import opened Kernel
  import opened KernelInvariant
  import opened KernelRuns
  import opened KernelTheorems
  import opened KernelFacts
  import opened JoinSteps

  /** A join that has returned found its target finished, and the target stays finished; a
      sleep that has returned slept its ticks. */
  lemma ReturnMeansMet(ss: seq<Sys>, steps: seq<JStep>, i: nat, j: nat, t: int, goal: Goal)
    requires IsJoinRun(ss, steps) && i <= j < |ss| && (t, goal) in ss[i].returned
    ensures Met(ss[j].g, goal)
    ensures goal.Joined? ==> goal.target != ss[j].g.s.running && goal.target !in ss[j].g.s.ready
  {
    ReturnedStays(ss, steps, i, j);
    JRunInv(ss, steps, j);
    assert (t, goal) in ss[j].returned;
    if goal.Joined? {
      FinishedMeansExited(ss[j].g, goal.target);
      assert ThreadOk(ss[j].g, goal.target);
    }
  }

  /** A thread in the loop that executes its own code owns the mutex and can always take
      the next step of the loop: leave if its test holds, wait again if not. */
  lemma LoopNeverStuck(ss: seq<Sys>, steps: seq<JStep>, i: nat)
    requires IsJoinRun(ss, steps) && i < |ss|
    requires var g := ss[i].g; g.s.running in g.threads && !g.resuming && Me(g).pos == User
    requires CallOf(ss[i], ss[i].g.s.running).Inside?
    ensures var call := CallOf(ss[i], ss[i].g.s.running);
      && call.mtx in ss[i].g.mutexes && ss[i].g.mutexes[call.mtx].owner == ss[i].g.s.running
      && CanStep(ss[i], if Met(ss[i].g, call.goal) then TestHolds else TestFails)
  {
    JRunInv(ss, steps, i);
    LoopOwns(ss[i]);
  }

  // ---- what a call was asked for ----------------------------------------------

  /** sleep returns exactly when so many ticks have passed since it was called, and until then
      it waits on the condition it was given. */
  lemma SleepsSoLong(ss: seq<Sys>, steps: seq<JStep>, k: nat, i: nat, r: int, c: int, m: int, count: nat)
    requires IsJoinRun(ss, steps) && Takes(ss, steps, k, r) && steps[k] == BeginSleep(c, m, count)
    requires Takes(ss, steps, i, r) && InsideSince(ss, steps, k, i, r)
    ensures steps[i].TestHolds? ==> ss[i].g.systick >= ss[k].g.systick + count && Leaves(ss[i], ss[i + 1], m)
    ensures steps[i].TestFails? ==> ss[i].g.systick < ss[k].g.systick + count && Waits(ss[i], ss[i + 1], c, m)
  {
    SleepBegins(ss, steps, k, r, c, m, count);
    CallLasts(ss, steps, k, i, r);
    TestStep(ss, steps, i, r, Slept(ss[k].g.systick + count), c, m);
  }

  /** join returns exactly when its target is finished, and until then it waits on the target's
      condition. */
  lemma JoinsTarget(ss: seq<Sys>, steps: seq<JStep>, k: nat, i: nat, r: int, t: int)
    requires IsJoinRun(ss, steps) && Takes(ss, steps, k, r) && steps[k] == BeginJoin(t)
    requires Takes(ss, steps, i, r) && InsideSince(ss, steps, k, i, r)
    ensures t in ss[k].g.s.tcbs
    ensures var b := ss[k].g.s.tcbs[t];
      && (steps[i].TestHolds? ==> GetThreadState(ss[i].g.s, t) == FINISHED && Leaves(ss[i], ss[i + 1], b.mtxForJoin))
      && (steps[i].TestFails? ==> GetThreadState(ss[i].g.s, t) != FINISHED && Waits(ss[i], ss[i + 1], b.condForJoin, b.mtxForJoin))
  {
    JoinBegins(ss, steps, k, r, t);
    CallLasts(ss, steps, k, i, r);
    var b := ss[k].g.s.tcbs[t];
    TestStep(ss, steps, i, r, Joined(t), b.condForJoin, b.mtxForJoin);
  }

  lemma {:induction false} SystickCounts(ss: seq<Sys>, steps: seq<JStep>, k: nat, i: nat)
    requires IsJoinRun(ss, steps) && k <= i <= |steps|
    ensures ss[i].g.systick == ss[k].g.systick + TicksIn(steps, k, i)
  {
    if k < i {
      SystickCounts(ss, steps, k, i - 1);
      assert JStateOf(ss, steps, i);
      TickExactly(ss[i - 1].g, KernelPart(ss[i - 1], steps[i - 1]));
    }
  }

  // ---- a tick wakes the sleepers ----------------------------------------------

  /** After a timer interrupt every thread that was asleep on the timer's condition is ready, or
      runs already. */
  lemma TickWakes(gs: seq<Kernel>, steps: seq<Step>, i: nat, t: int)
    requires IsRun(gs, steps) && i < |steps| && steps[i] == InterruptStep(true)
    requires gs[i].sleepCond in gs[i].conds && t in gs[i].conds[gs[i].sleepCond]
    ensures t in gs[i + 1].s.ready || t == gs[i + 1].s.running
  {
    RunInv(gs, steps, i);
    RunInv(gs, steps, i + 1);
    assert StateOf(gs, steps, i + 1);
    assert CondOk(gs[i], gs[i].sleepCond) && Asleep(gs[i], t, gs[i].sleepCond);
    TickEmpties(gs[i]);
    InterruptMoves(gs[i], true);
    assert ThreadOk(gs[i + 1], t);
  }
}
