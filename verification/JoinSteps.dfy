/** join and sleep as programs of kernel steps, and what every step of such programs keeps.

    Both are the same monitor loop: lock, wait on a condition until a test holds, unlock.  Any
    number of threads join and sleep at once, with anything else interleaved.  A thread inside the
    loop carries the test it makes and the condition and the mutex it makes it with; the history
    variable `returned` holds every call that is over.  The invariant says that a thread tests only
    with the mutex in its hands and that the test of a call that is over still holds, because
    neither the tick counter nor a finished thread goes back.  A call that has begun stays as it
    began until its own test holds, so that each test on the way is that of the call. */
module JoinSteps {
  import opened SchedulerSpec
  import opened Kernel
  import opened KernelInvariant
  import opened KernelRuns
  import opened KernelTheorems
  import opened KernelFacts

  datatype Goal = Joined(target: int) | Slept(until: nat)

  /** Inside(…): lock has been called and the loop has not been left. */
  datatype Call = Outside | Inside(goal: Goal, cond: int, mtx: int)

  /** `returned`: every completed call, with the thread that made it. */
  datatype Sys = Sys(g: Kernel, calls: map<int, Call>, returned: set<(int, Goal)>)

  datatype JStep =
    | Other(step: Step)
    | BeginJoin(target: int)
    | BeginSleep(cond: int, mtx: int, count: nat)
    | TestFails | TestHolds

  function CallOf(s: Sys, t: int): Call { if t in s.calls then s.calls[t] else Outside }

  /** The loop test of join, and that of sleep. */
  predicate Met(g: Kernel, goal: Goal) {
    match goal
    case Joined(t) => GetThreadState(g.s, t) == FINISHED
    case Slept(until) => g.systick >= until
  }

  function LockOf(s: Sys, step: JStep): int
    requires step.BeginJoin? || step.BeginSleep?
  {
    match step
    case BeginJoin(t) => Lookup(s.g.s.tcbs, t).mtxForJoin
    case BeginSleep(_, m, _) => m
  }

  predicate CanStep(s: Sys, step: JStep) {
    var call := CallOf(s, s.g.s.running);
    match step
    case Other(k) => Enabled(s.g, k) && (k.Resume? || k.InterruptStep? || k.RelockStep? || call.Outside?)
    case BeginJoin(t) => call.Outside? && t in s.g.threads && t in s.g.s.tcbs && Enabled(s.g, LockStep(LockOf(s, step)))
      && s.g.s.tcbs[t].condForJoin in s.g.conds
    case BeginSleep(c, m, _) => c in s.g.conds && call.Outside? && Enabled(s.g, LockStep(m))
    case TestFails => call.Inside? && !Met(s.g, call.goal) && Enabled(s.g, WaitStep(call.cond, call.mtx))
    case TestHolds => call.Inside? && Met(s.g, call.goal) && Enabled(s.g, UnlockStep(call.mtx))
  }

  function KernelPart(s: Sys, step: JStep): Step
    requires CanStep(s, step)
  {
    var call := CallOf(s, s.g.s.running);
    match step
    case Other(k) => k
    case BeginJoin(_) => LockStep(LockOf(s, step))
    case BeginSleep(_, m, _) => LockStep(m)
    case TestFails => WaitStep(call.cond, call.mtx)
    case TestHolds => UnlockStep(call.mtx)
  }

  function JApply(s: Sys, step: JStep): Sys
    requires CanStep(s, step)
  {
    var r := s.g.s.running;
    var s1 := s.(g := Apply(s.g, KernelPart(s, step)));
    match step
    case BeginJoin(t) =>
      s1.(calls := s.calls[r := Inside(Joined(t), Lookup(s.g.s.tcbs, t).condForJoin, LockOf(s, step))])
    case BeginSleep(c, m, count) => s1.(calls := s.calls[r := Inside(Slept(s.g.systick + count), c, m)])
    case TestHolds => s1.(calls := s.calls[r := Outside], returned := s.returned + {(r, CallOf(s, r).goal)})
    case _ => s1
  }

  ghost predicate JStateOf(ss: seq<Sys>, steps: seq<JStep>, i: int)
    requires 0 <= i < |ss| == |steps| + 1
  {
    if i == 0 then ss[0] == Sys(Boot(), map[], {})
    else CanStep(ss[i - 1], steps[i - 1]) && ss[i] == JApply(ss[i - 1], steps[i - 1])
  }

  ghost predicate IsJoinRun(ss: seq<Sys>, steps: seq<JStep>) {
    |ss| == |steps| + 1 && forall i :: 0 <= i < |ss| ==> JStateOf(ss, steps, i)
  }

  // ---- what the kernel does to the tests --------------------------------------

  lemma TickedCounts(g: Kernel, tick: bool)
    ensures Ticked(g, tick).systick == g.systick + if tick then 1 else 0
  {
  }

  lemma HandlerCounts(g: Kernel)
    requires g.s.running in g.threads
    ensures YieldInHandler(g).systick == g.systick
  {
  }

  lemma InterruptTick(g: Kernel, tick: bool, g2: Kernel)
    requires g.s.running in g.threads && g2 == Ticked(g, tick)
    ensures ApplyInterrupt(g, tick).systick == g2.systick
  {
    if g2.s.running in g2.threads { HandlerCounts(g2); }
  }

  lemma TickGrows(g: Kernel, step: Step)
    requires Enabled(g, step)
    ensures Apply(g, step).systick >= g.systick
  {
    match step
    case InterruptStep(tick) => InterruptTick(g, tick, Ticked(g, tick)); TickedCounts(g, tick);
    case _ =>
  }

  /** Once a test holds it holds for ever. */
  lemma MetStays(g: Kernel, step: Step, goal: Goal)
    requires Inv(g) && NestIs(g, 0) && Enabled(g, step) && Met(g, goal)
    requires goal.Joined? ==> goal.target in g.threads
    ensures Met(Apply(g, step), goal)
    ensures goal.Joined? ==> goal.target in Apply(g, step).threads
  {
    match goal
    case Slept(_) => TickGrows(g, step);
    case Joined(t) =>
      StepKeeps(g, step);
      FinishedMeansExited(g, t);
      GoneStays(g, step, t);
      FinishedMeansExited(Apply(g, step), t);
  }

  // ---- invariant --------------------------------------------------------------

  predicate GoalOk(g: Kernel, goal: Goal) { goal.Joined? ==> goal.target in g.threads }

  /** A thread inside the loop tests only with the mutex in its hands. */
  predicate CallOk(g: Kernel, t: int, call: Call) {
    call.Outside? ||
    (t in g.threads && t != IDLE && GoalOk(g, call.goal) && call.cond in g.conds && call.mtx in g.mutexes
     && var th := g.threads[t];
     || (th.pos == User && call.mtx in th.holds)
     || th.pos == LockTail(call.mtx) || th.pos == WaitTail(call.cond, call.mtx) || th.pos == Relock(call.mtx))
  }

  ghost predicate JInv(s: Sys) {
    && Inv(s.g) && NestIs(s.g, 0)
    && (forall t :: t in s.calls ==> CallOk(s.g, t, s.calls[t]))
    && (forall x :: x in s.returned ==> GoalOk(s.g, x.1) && Met(s.g, x.1))
  }

  lemma CallSurvives(g: Kernel, step: Step, g': Kernel, t: int, call: Call)
    requires Facts(g, step, g') && CallOk(g, t, call)
    requires t == g.s.running && call.Inside? ==>
      || step.Resume? || step.InterruptStep? || step.RelockStep?
      || (step == WaitStep(call.cond, call.mtx) && g.threads[t].pos == User)
    ensures CallOk(g', t, call)
  {
  }

  lemma RunnerCall(s: Sys, step: JStep)
    requires JInv(s) && CanStep(s, step)
    ensures var s', r := JApply(s, step), s.g.s.running; CallOk(s'.g, r, CallOf(s', r))
  {
    var k, r := KernelPart(s, step), s.g.s.running;
    StepFacts(s.g, k);
    if step.Other? || step.TestFails? { CallSurvives(s.g, k, JApply(s, step).g, r, CallOf(s, r)); }
  }

  lemma JStepCalls(s: Sys, step: JStep)
    requires JInv(s) && CanStep(s, step)
    ensures var s' := JApply(s, step); forall t :: t in s'.calls ==> CallOk(s'.g, t, s'.calls[t])
  {
    var k, s', r := KernelPart(s, step), JApply(s, step), s.g.s.running;
    StepFacts(s.g, k);
    RunnerCall(s, step);
    forall t | t in s'.calls ensures CallOk(s'.g, t, s'.calls[t]) {
      if t != r { CallSurvives(s.g, k, s'.g, t, s.calls[t]); }
    }
  }

  lemma JStepKeeps(s: Sys, step: JStep)
    requires JInv(s) && CanStep(s, step)
    ensures JInv(JApply(s, step))
  {
    var k, s' := KernelPart(s, step), JApply(s, step);
    StepKeeps(s.g, k);
    JStepCalls(s, step);
    forall x | x in s'.returned ensures GoalOk(s'.g, x.1) && Met(s'.g, x.1) { MetStays(s.g, k, x.1); }
  }

  lemma JRunStarts(ss: seq<Sys>, steps: seq<JStep>)
    requires |ss| == |steps| + 1 && JStateOf(ss, steps, 0)
    ensures JInv(ss[0])
  {
    BootInv();
  }

  lemma JRunStep(ss: seq<Sys>, steps: seq<JStep>, i: nat)
    requires 0 < i < |ss| == |steps| + 1 && JStateOf(ss, steps, i) && JInv(ss[i - 1])
    ensures JInv(ss[i])
  {
    JStepKeeps(ss[i - 1], steps[i - 1]);
  }

  lemma {:induction false} JRunInv(ss: seq<Sys>, steps: seq<JStep>, i: nat)
    requires IsJoinRun(ss, steps) && i < |ss|
    ensures JInv(ss[i])
  {
    assert JStateOf(ss, steps, i);
    if i == 0 {
      JRunStarts(ss, steps);
    } else {
      JRunInv(ss, steps, i - 1);
      JRunStep(ss, steps, i);
    }
  }

  lemma ReturnedGrows(s: Sys, step: JStep)
    requires CanStep(s, step)
    ensures s.returned <= JApply(s, step).returned
  {
  }

  lemma {:induction false} ReturnedStays(ss: seq<Sys>, steps: seq<JStep>, i: nat, j: nat)
    requires IsJoinRun(ss, steps) && i <= j < |ss|
    ensures ss[i].returned <= ss[j].returned
  {
    if i < j {
      ReturnedStays(ss, steps, i, j - 1);
      assert JStateOf(ss, steps, j);
      ReturnedGrows(ss[j - 1], steps[j - 1]);
    }
  }

  lemma LoopOwns(s: Sys)
    requires JInv(s) && s.g.s.running in s.g.threads && !s.g.resuming && Me(s.g).pos == User && CallOf(s, s.g.s.running).Inside?
    ensures var call := CallOf(s, s.g.s.running);
      && call.mtx in s.g.mutexes && s.g.mutexes[call.mtx].owner == s.g.s.running
      && CanStep(s, if Met(s.g, call.goal) then TestHolds else TestFails)
  {
    var r := s.g.s.running;
    assert CallOk(s.g, r, s.calls[r]);
    assert ThreadOk(s.g, r);
  }

  // ---- what a call was asked for ----------------------------------------------

  /** Thread r takes step i. */
  predicate Takes(ss: seq<Sys>, steps: seq<JStep>, i: nat, r: int) { i < |steps| && i < |ss| && ss[i].g.s.running == r }

  /** The first time after step k that thread r finds its test to hold is not before step i. */
  predicate InsideSince(ss: seq<Sys>, steps: seq<JStep>, k: nat, i: nat, r: int) {
    k < i && forall l: nat :: k < l < i && Takes(ss, steps, l, r) ==> !steps[l].TestHolds?
  }

  /** Once a call has begun, only the step that ends it changes what the thread is in. */
  lemma {:induction false} CallLasts(ss: seq<Sys>, steps: seq<JStep>, k: nat, i: nat, r: int)
    requires IsJoinRun(ss, steps) && Takes(ss, steps, k, r) && (steps[k].BeginJoin? || steps[k].BeginSleep?)
    requires i < |ss| && InsideSince(ss, steps, k, i, r)
    ensures CallOf(ss[i], r) == CallOf(ss[k + 1], r) && CallOf(ss[i], r).Inside?
    decreases i
  {
    assert JStateOf(ss, steps, i);
    if i > k + 1 {
      CallLasts(ss, steps, k, i - 1, r);
      assert Takes(ss, steps, i - 1, r) ==> !steps[i - 1].TestHolds?;
    }
  }

  /** The steps of a loop: the first releases the mutex and waits, the second ends it. */
  ghost predicate Waits(s: Sys, s1: Sys, c: int, m: int) { Enabled(s.g, WaitStep(c, m)) && s1.g == Apply(s.g, WaitStep(c, m)) }

  ghost predicate Leaves(s: Sys, s1: Sys, m: int) { Enabled(s.g, UnlockStep(m)) && s1.g == Apply(s.g, UnlockStep(m)) }

  /** A test and what follows it. */
  lemma TestStep(ss: seq<Sys>, steps: seq<JStep>, i: nat, r: int, goal: Goal, c: int, m: int)
    requires IsJoinRun(ss, steps) && Takes(ss, steps, i, r) && CallOf(ss[i], r) == Inside(goal, c, m)
    ensures steps[i].TestHolds? ==> Met(ss[i].g, goal) && Leaves(ss[i], ss[i + 1], m)
    ensures steps[i].TestFails? ==> !Met(ss[i].g, goal) && Waits(ss[i], ss[i + 1], c, m)
  {
    assert JStateOf(ss, steps, i + 1);
  }

  lemma SleepBegins(ss: seq<Sys>, steps: seq<JStep>, k: nat, r: int, c: int, m: int, count: nat)
    requires IsJoinRun(ss, steps) && Takes(ss, steps, k, r) && steps[k] == BeginSleep(c, m, count)
    ensures CallOf(ss[k + 1], r) == Inside(Slept(ss[k].g.systick + count), c, m)
  {
    assert JStateOf(ss, steps, k + 1);
  }

  lemma JoinBegins(ss: seq<Sys>, steps: seq<JStep>, k: nat, r: int, t: int)
    requires IsJoinRun(ss, steps) && Takes(ss, steps, k, r) && steps[k] == BeginJoin(t)
    ensures t in ss[k].g.s.tcbs
    ensures var b := ss[k].g.s.tcbs[t]; CallOf(ss[k + 1], r) == Inside(Joined(t), b.condForJoin, b.mtxForJoin)
  {
    assert JStateOf(ss, steps, k + 1);
  }

  /** Timer interrupts from step k up to step i. */
  function TicksIn(steps: seq<JStep>, k: nat, i: nat): nat
    requires k <= i <= |steps|
  {
    if i == k then 0 else TicksIn(steps, k, i - 1) + if steps[i - 1] == Other(InterruptStep(true)) then 1 else 0
  }

  lemma TickExactly(g: Kernel, step: Step)
    requires Enabled(g, step)
    ensures Apply(g, step).systick == g.systick + if step == InterruptStep(true) then 1 else 0
  {
    match step
    case InterruptStep(tick) => InterruptTick(g, tick, Ticked(g, tick)); TickedCounts(g, tick);
    case _ =>
  }

  lemma TickEmpties(g: Kernel)
    requires Inv(g) && Ready0(g) && g.sleepCond in g.conds
    ensures var g1 := ApplyInterrupt(g, true);
      g1.sleepCond == g.sleepCond && g.sleepCond in g1.conds && g1.conds[g.sleepCond] == []
  {
    var g0 := g.(s := g.s.(nest := 1));
    CountersFree(g, g0);
    UpdateTickForm(g0);
    WakeAllForm(g0.(systick := g0.systick + 1), g0.sleepCond);
    TickedKeeps(g, true);
    HandlerConds(Ticked(g, true));
    YieldInHandlerKeeps(Ticked(g, true));
    InterruptKeeps(g, true);
  }
}
