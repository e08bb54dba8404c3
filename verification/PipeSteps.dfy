/** The blocking byte queue behind a pipe, as programs of kernel steps, and what every step of
    such programs keeps.

    Any number of threads write and read one pipe while they and all other threads do anything
    else the kernel allows, in any interleaving: preemption is possible between any two pushes
    or pops, inside the critical section too.  A call is a state of the thread that makes it,
    and history variables record what has been written, popped and delivered.  The invariant
    says that whoever is inside the critical section owns the lock, that at most one thread is,
    and that what has been popped, then the queue, is what has been written in completed calls
    and then in the one under way.  The lemmas take the steps one at a time: first what becomes
    of the calls, which follows from what KernelFacts.dfy says of positions and holdings, then
    what becomes of the stream, and last, with one consumer, of whoever has yet to notify it. */
module PipeSteps {
  import opened SchedulerSpec
  import opened Kernel
  import opened KernelInvariant
  import opened KernelSteps
  import opened KernelRuns
  import opened KernelFacts

  type Byte = bv8

  /** How far a thread is in write or read. */
  datatype Call =
    | Outside
    | Writing(data: seq<Byte>, pushed: nat)    // lock called; pushed so many bytes
    | Notifying(data: seq<Byte>)               // unlocked, notifyOne still to come
    | Reading(n: nat)                          // lock called, or waiting for data
    | Draining(count: nat, got: seq<Byte>)     // popping `count` bytes

  /** `written`, `popped` and `delivered` are history: completed writes, every popped byte, and
      what each completed read returned. */
  datatype Sys = Sys(
    g: Kernel, mtx: int, cond: int, q: seq<Byte>, calls: map<int, Call>,
    written: seq<seq<Byte>>, popped: seq<Byte>, delivered: seq<seq<Byte>>)

  datatype PStep =
    | Other(step: Step)
    | BeginWrite(data: seq<Byte>) | Push | EndWrite | Notify
    | BeginRead(n: nat) | AwaitData | StartDrain | Pop | EndRead

  function CallOf(s: Sys, t: int): Call { if t in s.calls then s.calls[t] else Outside }

  predicate InCode(g: Kernel) {
    !g.resuming && !g.s.halted && g.s.running in g.threads && Me(g).pos.User?
  }

  predicate CanStep(s: Sys, step: PStep) {
    var call := CallOf(s, s.g.s.running);
    match step
    case Other(k) => Enabled(s.g, k) && (k.Resume? || k.InterruptStep? || k.RelockStep? || call.Outside?)
    case BeginWrite(_) => call.Outside? && Enabled(s.g, LockStep(s.mtx))
    case Push => InCode(s.g) && call.Writing? && call.pushed < |call.data|
    case EndWrite => call.Writing? && call.pushed == |call.data| && Enabled(s.g, UnlockStep(s.mtx))
    case Notify => call.Notifying? && Enabled(s.g, NotifyStep(s.cond))
    case BeginRead(_) => call.Outside? && Enabled(s.g, LockStep(s.mtx))
    case AwaitData => call.Reading? && s.q == [] && Enabled(s.g, WaitStep(s.cond, s.mtx))
    case StartDrain => InCode(s.g) && call.Reading? && s.q != []
    case Pop => InCode(s.g) && call.Draining? && |call.got| < call.count && s.q != []
    case EndRead => call.Draining? && |call.got| == call.count && Enabled(s.g, UnlockStep(s.mtx))
  }

  function Min(a: nat, b: nat): nat { if a < b then a else b }

  function Run(s: Sys, step: Step): Sys
    requires Enabled(s.g, step)
  {
    s.(g := Apply(s.g, step))
  }

  function SetCall(s: Sys, call: Call): Sys { s.(calls := s.calls[s.g.s.running := call]) }

  function PApply(s: Sys, step: PStep): Sys
    requires CanStep(s, step)
  {
    var call := CallOf(s, s.g.s.running);
    match step
    case Other(k) => Run(s, k)
    case BeginWrite(data) => Run(SetCall(s, Writing(data, 0)), LockStep(s.mtx))
    case Push => SetCall(s, call.(pushed := call.pushed + 1)).(q := s.q + [call.data[call.pushed]])
    case EndWrite => Run(SetCall(s, Notifying(call.data)).(written := s.written + [call.data]), UnlockStep(s.mtx))
    case Notify => Run(SetCall(s, Outside), NotifyStep(s.cond))
    case BeginRead(n) => Run(SetCall(s, Reading(n)), LockStep(s.mtx))
    case AwaitData => Run(s, WaitStep(s.cond, s.mtx))
    case StartDrain => SetCall(s, Draining(Min(call.n, |s.q|), []))
    case Pop => SetCall(s, call.(got := call.got + [s.q[0]])).(q := s.q[1..], popped := s.popped + [s.q[0]])
    case EndRead => Run(SetCall(s, Outside).(delivered := s.delivered + [call.got]), UnlockStep(s.mtx))
  }

  /** A pipe just opened in a running kernel. */
  ghost predicate Opened(s: Sys) {
    && Reached(s.g)
    && s.mtx in s.g.mutexes && s.g.mutexes[s.mtx] == FRESH_MUTEX
    && s.cond in s.g.conds && s.g.conds[s.cond] == []
    && s.q == [] && s.calls == map[] && s.written == [] && s.popped == [] && s.delivered == []
  }

  ghost predicate PStateOf(ss: seq<Sys>, steps: seq<PStep>, i: int)
    requires 0 <= i < |ss| == |steps| + 1
  {
    if i == 0 then Opened(ss[0])
    else CanStep(ss[i - 1], steps[i - 1]) && ss[i] == PApply(ss[i - 1], steps[i - 1])
  }

  ghost predicate IsPipeRun(ss: seq<Sys>, steps: seq<PStep>) {
    |ss| == |steps| + 1 && forall i :: 0 <= i < |ss| ==> PStateOf(ss, steps, i)
  }

  // ---- invariant --------------------------------------------------------------

  /** Where a thread inside a pipe call can be, and what it then holds. */
  predicate CallOk(g: Kernel, mtx: int, cond: int, q: seq<Byte>, t: int, call: Call)
  {
    call.Outside? ||
    (t in g.threads && t != IDLE
     && var th := g.threads[t];
     match call
     case Outside => true
     case Writing(data, pushed) =>
       && pushed <= |data|
       && ((th.pos == User && mtx in th.holds) || (th.pos == LockTail(mtx) && pushed == 0))
     case Notifying(_) => th.pos == User
     case Reading(_) =>
       (th.pos == User && mtx in th.holds) || th.pos == LockTail(mtx) || th.pos == WaitTail(cond, mtx) || th.pos == Relock(mtx)
     case Draining(count, got) =>
       th.pos == User && mtx in th.holds && |got| <= count && count - |got| <= |q|)
  }

  function Flatten(xs: seq<seq<Byte>>): seq<Byte> {
    if xs == [] then [] else Flatten(xs[..|xs| - 1]) + xs[|xs| - 1]
  }

  /** The bytes the holder of the queue's mutex has pushed in a write not yet complete. */
  function PartialWrite(s: Sys): seq<Byte> {
    if s.mtx !in s.g.mutexes then []
    else match CallOf(s, s.g.mutexes[s.mtx].owner)
      case Writing(data, pushed) => if pushed <= |data| then data[..pushed] else []
      case _ => []
  }

  function PartialRead(s: Sys): seq<Byte> {
    if s.mtx !in s.g.mutexes then []
    else match CallOf(s, s.g.mutexes[s.mtx].owner)
      case Draining(_, got) => got
      case _ => []
  }

  ghost predicate Stream(s: Sys) {
    && s.popped + s.q == Flatten(s.written) + PartialWrite(s)
    && s.popped == Flatten(s.delivered) + PartialRead(s)
  }

  ghost predicate PCore(s: Sys) {
    && Inv(s.g) && NestIs(s.g, 0)
    && s.mtx in s.g.mutexes && s.cond in s.g.conds
    && CallsOk(s)
  }

  ghost predicate PInv(s: Sys) { PCore(s) && Stream(s) }

  // ---- the calls --------------------------------------------------------------

  /** A kernel step by a thread at `call` leaves the call's condition true. */
  lemma CallSurvives(g: Kernel, step: Step, g': Kernel, mtx: int, cond: int, q: seq<Byte>, t: int, call: Call)
    requires Facts(g, step, g') && CallOk(g, mtx, cond, q, t, call)
    requires t == g.s.running && !call.Outside? ==>
      || step.Resume? || step.InterruptStep? || step.RelockStep?
      || (call.Reading? && step == WaitStep(cond, mtx) && g.threads[t].pos == User)
    ensures CallOk(g', mtx, cond, q, t, call)
  {
  }

  /** Starting a call by locking, or leaving the critical section. */
  lemma CallMoves(g: Kernel, step: Step, g': Kernel, mtx: int, cond: int, q: seq<Byte>, call: Call)
    requires Facts(g, step, g') && g.threads[g.s.running].pos == User && g.s.running != IDLE
    requires match call
      case Outside => true
      case Writing(data, pushed) => pushed == 0 && step == LockStep(mtx)
      case Notifying(_) => step == UnlockStep(mtx)
      case Reading(_) => step == LockStep(mtx)
      case Draining(_, _) => false
    ensures CallOk(g', mtx, cond, q, g.s.running, call)
  {
  }

  ghost predicate CallsOk(s: Sys) {
    forall t :: t in s.calls ==> CallOk(s.g, s.mtx, s.cond, s.q, t, s.calls[t])
  }

  /** A thread in the middle of pushing or popping owns the queue's mutex. */
  predicate Busy(call: Call) {
    (call.Writing? && call.pushed > 0) || (call.Draining? && call.got != [])
  }

  predicate InsideSection(call: Call) { Busy(call) || call.Draining? }

  lemma BusyOwns(s: Sys, t: int)
    requires PCore(s) && t in s.calls && InsideSection(s.calls[t])
    ensures s.g.mutexes[s.mtx].owner == t && s.mtx in s.g.threads[t].holds
  {
    assert CallOk(s.g, s.mtx, s.cond, s.q, t, s.calls[t]);
    assert ThreadOk(s.g, t);
  }

  lemma HolderOwns(g: Kernel, m: int, t: int)
    requires Inv(g) && t in g.threads && m in g.threads[t].holds
    ensures m in g.mutexes && g.mutexes[m].owner == t
  {
    assert ThreadOk(g, t);
  }

  // ---- kernel invariant and calls after each step -----------------------------

  lemma StepKernel(s: Sys, step: PStep)
    requires PCore(s) && CanStep(s, step)
    ensures var s' := PApply(s, step);
      Inv(s'.g) && NestIs(s'.g, 0) && s'.mtx == s.mtx && s'.cond == s.cond && s'.mtx in s'.g.mutexes && s'.cond in s'.g.conds
  {
    match step
    case Other(k) => StepKeeps(s.g, k); StepFacts(s.g, k);
    case BeginWrite(_) => StepKeeps(s.g, LockStep(s.mtx)); StepFacts(s.g, LockStep(s.mtx));
    case EndWrite => StepKeeps(s.g, UnlockStep(s.mtx)); StepFacts(s.g, UnlockStep(s.mtx));
    case Notify => StepKeeps(s.g, NotifyStep(s.cond)); StepFacts(s.g, NotifyStep(s.cond));
    case BeginRead(_) => StepKeeps(s.g, LockStep(s.mtx)); StepFacts(s.g, LockStep(s.mtx));
    case AwaitData => StepKeeps(s.g, WaitStep(s.cond, s.mtx)); StepFacts(s.g, WaitStep(s.cond, s.mtx));
    case EndRead => StepKeeps(s.g, UnlockStep(s.mtx)); StepFacts(s.g, UnlockStep(s.mtx));
    case _ =>
  }

  /** Kernel steps: the runner's call may change, everybody's condition holds again. */
  lemma RunCalls(s: Sys, step: Step, call: Call, s': Sys)
    requires PCore(s) && Enabled(s.g, step)
    requires s'.g == Apply(s.g, step) && s'.mtx == s.mtx && s'.cond == s.cond && s'.q == s.q
    requires s'.calls == s.calls || s'.calls == s.calls[s.g.s.running := call]
    requires CallOk(s'.g, s.mtx, s.cond, s.q, s.g.s.running, CallOf(s', s.g.s.running))
    ensures CallsOk(s')
  {
    StepFacts(s.g, step);
    forall t | t in s'.calls ensures CallOk(s'.g, s'.mtx, s'.cond, s'.q, t, s'.calls[t]) {
      if t != s.g.s.running {
        assert CallOk(s.g, s.mtx, s.cond, s.q, t, s.calls[t]);
        CallSurvives(s.g, step, s'.g, s.mtx, s.cond, s.q, t, s.calls[t]);
      }
    }
  }

  /** Pushes and pops: only the runner, who owns the mutex, can be inside the section. */
  lemma LocalCalls(s: Sys, call: Call, q: seq<Byte>, s': Sys)
    requires PCore(s) && InCode(s.g) && s.mtx in Me(s.g).holds
    requires s'.g == s.g && s'.mtx == s.mtx && s'.cond == s.cond && s'.q == q && s'.calls == s.calls[s.g.s.running := call]
    requires CallOk(s.g, s.mtx, s.cond, q, s.g.s.running, call)
    ensures CallsOk(s')
  {
    HolderOwns(s.g, s.mtx, s.g.s.running);
    forall t | t in s'.calls ensures CallOk(s'.g, s'.mtx, s'.cond, s'.q, t, s'.calls[t]) {
      if t != s.g.s.running {
        assert CallOk(s.g, s.mtx, s.cond, s.q, t, s.calls[t]);
        if s.calls[t].Draining? { BusyOwns(s, t); }
      }
    }
  }

  lemma RunnerOk(s: Sys)
    requires PCore(s) && s.g.s.running in s.g.threads
    ensures CallOk(s.g, s.mtx, s.cond, s.q, s.g.s.running, CallOf(s, s.g.s.running))
  {
  }

  /** A thread enters or leaves a call with a kernel step. */
  lemma SectionCalls(s: Sys, step: PStep)
    requires PCore(s) && CanStep(s, step)
    requires step.BeginWrite? || step.BeginRead? || step.EndWrite? || step.EndRead? || step.Notify?
    ensures CallsOk(PApply(s, step))
  {
    var s', r := PApply(s, step), s.g.s.running;
    var call, g, g' := CallOf(s, r), s.g, s'.g;
    RunnerOk(s);
    match step
    case BeginWrite(data) =>
      StepFacts(g, LockStep(s.mtx));
      CallMoves(g, LockStep(s.mtx), g', s.mtx, s.cond, s.q, Writing(data, 0));
      RunCalls(s, LockStep(s.mtx), Writing(data, 0), s');
    case BeginRead(n) =>
      StepFacts(g, LockStep(s.mtx));
      CallMoves(g, LockStep(s.mtx), g', s.mtx, s.cond, s.q, Reading(n));
      RunCalls(s, LockStep(s.mtx), Reading(n), s');
    case EndWrite =>
      StepFacts(g, UnlockStep(s.mtx));
      CallMoves(g, UnlockStep(s.mtx), g', s.mtx, s.cond, s.q, Notifying(call.data));
      RunCalls(s, UnlockStep(s.mtx), Notifying(call.data), s');
    case EndRead =>
      StepFacts(g, UnlockStep(s.mtx));
      RunCalls(s, UnlockStep(s.mtx), Outside, s');
    case Notify =>
      StepFacts(g, NotifyStep(s.cond));
      RunCalls(s, NotifyStep(s.cond), Outside, s');
  }

  lemma StepCalls(s: Sys, step: PStep)
    requires PCore(s) && CanStep(s, step)
    ensures CallsOk(PApply(s, step))
  {
    var s', r := PApply(s, step), s.g.s.running;
    var call, g, g' := CallOf(s, r), s.g, s'.g;
    RunnerOk(s);
    match step
    case Push => LocalCalls(s, CallOf(s', r), s'.q, s');
    case StartDrain => LocalCalls(s, CallOf(s', r), s'.q, s');
    case Pop => LocalCalls(s, CallOf(s', r), s'.q, s');
    case Other(k) =>
      StepFacts(g, k);
      CallSurvives(g, k, g', s.mtx, s.cond, s.q, r, call);
      RunCalls(s, k, call, s');
    case AwaitData =>
      StepFacts(g, WaitStep(s.cond, s.mtx));
      CallSurvives(g, WaitStep(s.cond, s.mtx), g', s.mtx, s.cond, s.q, r, call);
      RunCalls(s, WaitStep(s.cond, s.mtx), call, s');
    case _ => SectionCalls(s, step);
  }

  // ---- the stream -------------------------------------------------------------

  function PushedBy(call: Call): seq<Byte> {
    if call.Writing? && call.pushed <= |call.data| then call.data[..call.pushed] else []
  }

  function GotBy(call: Call): seq<Byte> { if call.Draining? then call.got else [] }

  /** The partial transfers are those of the thread in the section, if there is one. */
  lemma PartialOf(s: Sys, t: int)
    requires PCore(s) && t in s.calls && InsideSection(s.calls[t])
    ensures PartialWrite(s) == PushedBy(s.calls[t]) && PartialRead(s) == GotBy(s.calls[t])
  {
    BusyOwns(s, t);
  }

  lemma PartialNone(s: Sys)
    requires PCore(s) && forall t :: t in s.calls ==> !InsideSection(s.calls[t])
    ensures PartialWrite(s) == [] && PartialRead(s) == []
  {
    var o := s.g.mutexes[s.mtx].owner;
    if o in s.calls { assert !InsideSection(s.calls[o]); }
  }

  /** Nobody else is in the section while the runner holds the mutex. */
  lemma Alone(s: Sys, t: int)
    requires PCore(s) && InCode(s.g) && s.mtx in Me(s.g).holds && t in s.calls && InsideSection(s.calls[t])
    ensures t == s.g.s.running
  {
    BusyOwns(s, t);
    HolderOwns(s.g, s.mtx, s.g.s.running);
  }

  ghost predicate SameSection(s: Sys, s': Sys) {
    forall t :: t in s.calls || t in s'.calls ==>
      CallOf(s, t) == CallOf(s', t) || (!InsideSection(CallOf(s, t)) && !InsideSection(CallOf(s', t)))
  }

  lemma PartialSame(s: Sys, s': Sys)
    requires PCore(s) && PCore(s') && SameSection(s, s')
    ensures PartialWrite(s') == PartialWrite(s) && PartialRead(s') == PartialRead(s)
  {
    if t :| t in s.calls && InsideSection(s.calls[t]) {
      assert CallOf(s, t) == CallOf(s', t);
      PartialOf(s, t);
      PartialOf(s', t);
    } else {
      PartialNone(s);
      forall t | t in s'.calls ensures !InsideSection(s'.calls[t]) { assert CallOf(s', t) == s'.calls[t]; }
      PartialNone(s');
    }
  }

  lemma RunnerPartials(s: Sys)
    requires PCore(s) && InCode(s.g) && s.mtx in Me(s.g).holds
    ensures var call := CallOf(s, s.g.s.running);
      (call.Writing? ==> call.pushed <= |call.data|) && PartialWrite(s) == PushedBy(call) && PartialRead(s) == GotBy(call)
  {
    HolderOwns(s.g, s.mtx, s.g.s.running);
    RunnerOk(s);
  }

  lemma Prefixes(data: seq<Byte>, k: nat, popped: seq<Byte>, q: seq<Byte>, done: seq<Byte>)
    requires k < |data| && popped + q == done + data[..k]
    ensures popped + (q + [data[k]]) == done + data[..k + 1]
  {
    assert data[..k + 1] == data[..k] + [data[k]];
    assert popped + (q + [data[k]]) == (popped + q) + [data[k]];
    assert done + (data[..k] + [data[k]]) == (done + data[..k]) + [data[k]];
  }

  lemma PushStream(s: Sys)
    requires PInv(s) && CanStep(s, Push) && PCore(PApply(s, Push))
    ensures Stream(PApply(s, Push))
  {
    RunnerOk(s);
    RunnerPartials(s);
    var call := CallOf(s, s.g.s.running);
    RunnerPartials(PApply(s, Push));
    Prefixes(call.data, call.pushed, s.popped, s.q, Flatten(s.written));
  }

  lemma PopStream(s: Sys)
    requires PInv(s) && CanStep(s, Pop) && PCore(PApply(s, Pop))
    ensures Stream(PApply(s, Pop))
  {
    RunnerOk(s);
    RunnerPartials(s);
    var s' := PApply(s, Pop);
    RunnerPartials(s');
    assert s'.popped + s'.q == s.popped + s.q;
  }

  lemma LeaveAlone(s: Sys, s': Sys, call: Call)
    requires PCore(s) && InCode(s.g) && s.mtx in Me(s.g).holds
    requires PCore(s') && s'.calls == s.calls[s.g.s.running := call] && !InsideSection(call)
    ensures PartialWrite(s') == [] && PartialRead(s') == []
  {
    forall t | t in s'.calls ensures !InsideSection(s'.calls[t]) {
      if t != s.g.s.running && InsideSection(s'.calls[t]) { Alone(s, t); }
    }
    PartialNone(s');
  }

  lemma FlattenPush(xs: seq<seq<Byte>>, x: seq<Byte>)
    ensures Flatten(xs + [x]) == Flatten(xs) + x
  {
    assert (xs + [x])[..|xs|] == xs;
  }

  lemma EndWriteStream(s: Sys)
    requires PInv(s) && CanStep(s, EndWrite) && PCore(PApply(s, EndWrite))
    ensures Stream(PApply(s, EndWrite))
  {
    var s', call := PApply(s, EndWrite), CallOf(s, s.g.s.running);
    RunnerPartials(s);
    assert call.data[..call.pushed] == call.data;
    LeaveAlone(s, s', Notifying(call.data));
    FlattenPush(s.written, call.data);
  }

  lemma EndReadStream(s: Sys)
    requires PInv(s) && CanStep(s, EndRead) && PCore(PApply(s, EndRead))
    ensures Stream(PApply(s, EndRead))
  {
    var s', call := PApply(s, EndRead), CallOf(s, s.g.s.running);
    RunnerPartials(s);
    LeaveAlone(s, s', Outside);
    FlattenPush(s.delivered, call.got);
  }

  lemma StartDrainStream(s: Sys)
    requires PInv(s) && CanStep(s, StartDrain) && PCore(PApply(s, StartDrain))
    ensures Stream(PApply(s, StartDrain))
  {
    RunnerOk(s);
    RunnerPartials(s);
    RunnerPartials(PApply(s, StartDrain));
  }

  /** The steps that only move threads around outside the section. */
  predicate Quiet(step: PStep) {
    step.Other? || step.BeginWrite? || step.Notify? || step.BeginRead? || step.AwaitData?
  }

  /** Quiet steps move nobody in or out of the section, and no bytes. */
  lemma QuietSection(s: Sys, step: PStep)
    requires CanStep(s, step) && Quiet(step)
    ensures var s' := PApply(s, step);
      SameSection(s, s') && s'.q == s.q && s'.popped == s.popped && s'.written == s.written && s'.delivered == s.delivered
  {
  }

  lemma QuietStream(s: Sys, step: PStep)
    requires PInv(s) && CanStep(s, step) && Quiet(step) && PCore(PApply(s, step))
    ensures Stream(PApply(s, step))
  {
    QuietSection(s, step);
    PartialSame(s, PApply(s, step));
  }

  lemma PStepKeeps(s: Sys, step: PStep)
    requires PInv(s) && CanStep(s, step)
    ensures PInv(PApply(s, step))
  {
    StepKernel(s, step);
    StepCalls(s, step);
    match step
    case Push => PushStream(s);
    case Pop => PopStream(s);
    case StartDrain => StartDrainStream(s);
    case EndWrite => EndWriteStream(s);
    case EndRead => EndReadStream(s);
    case _ => QuietStream(s, step);
  }

  lemma OpenedInv(s: Sys)
    requires Opened(s)
    ensures PInv(s)
  {
    var gs, steps :| IsRun(gs, steps) && gs[|gs| - 1] == s.g;
    RunInv(gs, steps, |gs| - 1);
  }

  lemma PRunStep(ss: seq<Sys>, steps: seq<PStep>, i: nat)
    requires 0 < i < |ss| == |steps| + 1 && PStateOf(ss, steps, i) && PInv(ss[i - 1])
    ensures PInv(ss[i])
  {
    PStepKeeps(ss[i - 1], steps[i - 1]);
  }

  lemma PRunStarts(ss: seq<Sys>, steps: seq<PStep>)
    requires |ss| == |steps| + 1 && PStateOf(ss, steps, 0)
    ensures PInv(ss[0])
  {
    OpenedInv(ss[0]);
  }

  lemma {:induction false} PRunInv(ss: seq<Sys>, steps: seq<PStep>, i: nat)
    requires IsPipeRun(ss, steps) && i < |ss|
    ensures PInv(ss[i])
  {
    assert PStateOf(ss, steps, i);
    if i == 0 {
      PRunStarts(ss, steps);
    } else {
      PRunInv(ss, steps, i - 1);
      PRunStep(ss, steps, i);
    }
  }

  // ---- one consumer: no lost wakeup -------------------------------------------

  /** Only `c` reads, and nobody waits on the pipe's private condition by hand. */
  predicate OnlyConsumer(s: Sys, step: PStep, c: int) {
    match step
    case BeginRead(_) => s.g.s.running == c
    case Other(WaitStep(k, _)) => k != s.cond
    case _ => true
  }

  ghost predicate OneConsumer(ss: seq<Sys>, steps: seq<PStep>, c: int) {
    IsPipeRun(ss, steps) && forall i :: 0 <= i < |steps| ==> OnlyConsumer(ss[i], steps[i], c)
  }

  /** This thread has pushed a byte and has not yet reached its notifyOne. */
  predicate OwesNotify(call: Call) {
    (call.Writing? && call.pushed > 0) || (call.Notifying? && call.data != [])
  }

  ghost predicate SomeoneOwes(calls: map<int, Call>) { exists p :: p in calls && OwesNotify(calls[p]) }

  predicate Consuming(call: Call) { call.Reading? || call.Draining? }

  ghost predicate OnlyReader(calls: map<int, Call>, c: int) {
    forall t :: t in calls && Consuming(calls[t]) ==> t == c
  }

  ghost predicate Wakeup(s: Sys, c: int) {
    && OnlyReader(s.calls, c)
    && s.cond in s.g.conds
    && (forall t :: t in s.g.conds[s.cond] ==> t == c)
    && (c in s.g.conds[s.cond] && s.q != [] ==> SomeoneOwes(s.calls))
  }

  /** A kernel step that puts nobody to sleep on the condition. */
  lemma RunWakeup(s: Sys, step: Step, s': Sys, c: int)
    requires Wakeup(s, c) && Facts(s.g, step, s'.g) && !(step.WaitStep? && step.c == s.cond)
    requires s'.cond == s.cond && s'.q == s.q && OnlyReader(s'.calls, c)
    requires SomeoneOwes(s.calls) ==> SomeoneOwes(s'.calls)
    ensures Wakeup(s', c)
  {
    var w, w' := s.g.conds[s.cond], s'.g.conds[s.cond];
    assert CondMoved(step, s.g.s.running, w, w', s.cond);
    forall t | t in w' ensures t in w { }
  }

  lemma OwesStays(calls: map<int, Call>, r: int, call: Call)
    requires r in calls && OwesNotify(calls[r]) ==> OwesNotify(call)
    ensures SomeoneOwes(calls) ==> SomeoneOwes(calls[r := call])
  {
    if p :| p in calls && OwesNotify(calls[p]) { assert OwesNotify(calls[r := call][p]); }
  }

  /** notifyOne reaches the consumer, the only thread there. */
  lemma NotifyWakeup(s: Sys, s': Sys, c: int)
    requires PInv(s) && Wakeup(s, c) && Facts(s.g, NotifyStep(s.cond), s'.g) && s'.cond == s.cond
    requires OnlyReader(s'.calls, c)
    ensures Wakeup(s', c)
  {
    var w := s.g.conds[s.cond];
    assert CondOk(s.g, s.cond);
    if w != [] { PopFront(w); assert w[0] in w; }
    assert CondMoved(NotifyStep(s.cond), s.g.s.running, w, s'.g.conds[s.cond], s.cond);
  }

  lemma AwaitWakeup(s: Sys, s': Sys, c: int)
    requires Wakeup(s, c) && Facts(s.g, WaitStep(s.cond, s.mtx), s'.g) && s'.cond == s.cond
    requires s.q == [] && s'.q == [] && s'.calls == s.calls && s.g.s.running == c
    ensures Wakeup(s', c)
  {
    assert CondMoved(WaitStep(s.cond, s.mtx), c, s.g.conds[s.cond], s'.g.conds[s.cond], s.cond);
  }

  lemma LocalWakeup(s: Sys, step: PStep, c: int)
    requires PInv(s) && CanStep(s, step) && Wakeup(s, c) && (step.Push? || step.StartDrain? || step.Pop?)
    ensures Wakeup(PApply(s, step), c)
  {
    var s', r := PApply(s, step), s.g.s.running;
    RunnerOk(s);
    match step
    case Push => assert OwesNotify(s'.calls[r]);
    case StartDrain => OwesStays(s.calls, r, s'.calls[r]);
    case Pop =>
      assert r == c && s.g.threads[c].pos == User;
      assert CondOk(s.g, s.cond);
      assert c !in s.g.conds[s.cond];
  }

  /** Entering and leaving the section. */
  lemma SectionWakeup(s: Sys, step: PStep, c: int)
    requires PInv(s) && CanStep(s, step) && OnlyConsumer(s, step, c) && Wakeup(s, c)
    requires step.BeginWrite? || step.EndWrite? || step.BeginRead? || step.EndRead?
    ensures Wakeup(PApply(s, step), c)
  {
    var s' := PApply(s, step);
    var k := if step.BeginWrite? || step.BeginRead? then LockStep(s.mtx) else UnlockStep(s.mtx);
    StepFacts(s.g, k);
    SectionOwes(s, step, c);
    RunWakeup(s, k, s', c);
  }

  lemma SectionOwes(s: Sys, step: PStep, c: int)
    requires CanStep(s, step) && OnlyConsumer(s, step, c) && OnlyReader(s.calls, c)
    requires step.BeginWrite? || step.EndWrite? || step.BeginRead? || step.EndRead?
    ensures OnlyReader(PApply(s, step).calls, c)
    ensures SomeoneOwes(s.calls) ==> SomeoneOwes(PApply(s, step).calls)
  {
    var r := s.g.s.running;
    OwesStays(s.calls, r, PApply(s, step).calls[r]);
  }

  lemma StepWakeup(s: Sys, step: PStep, c: int)
    requires PInv(s) && CanStep(s, step) && OnlyConsumer(s, step, c) && Wakeup(s, c)
    ensures Wakeup(PApply(s, step), c)
  {
    var s' := PApply(s, step);
    match step
    case Other(k) => StepFacts(s.g, k); RunWakeup(s, k, s', c);
    case Notify => StepFacts(s.g, NotifyStep(s.cond)); NotifyWakeup(s, s', c);
    case AwaitData => StepFacts(s.g, WaitStep(s.cond, s.mtx)); AwaitWakeup(s, s', c);
    case Push => LocalWakeup(s, step, c);
    case StartDrain => LocalWakeup(s, step, c);
    case Pop => LocalWakeup(s, step, c);
    case _ => SectionWakeup(s, step, c);
  }

  lemma WakeupStart(ss: seq<Sys>, steps: seq<PStep>, c: int)
    requires |ss| == |steps| + 1 && PStateOf(ss, steps, 0)
    ensures Wakeup(ss[0], c)
  {
  }

  lemma WakeupStep(ss: seq<Sys>, steps: seq<PStep>, i: nat, c: int)
    requires 0 < i < |ss| == |steps| + 1 && PStateOf(ss, steps, i) && PInv(ss[i - 1])
    requires OnlyConsumer(ss[i - 1], steps[i - 1], c) && Wakeup(ss[i - 1], c)
    ensures Wakeup(ss[i], c)
  {
    StepWakeup(ss[i - 1], steps[i - 1], c);
  }

  lemma WakeupNext(ss: seq<Sys>, steps: seq<PStep>, i: nat, c: int)
    requires OneConsumer(ss, steps, c) && 0 < i < |ss| && PInv(ss[i - 1]) && Wakeup(ss[i - 1], c)
    ensures Wakeup(ss[i], c)
  {
    assert PStateOf(ss, steps, i) && OnlyConsumer(ss[i - 1], steps[i - 1], c);
    WakeupStep(ss, steps, i, c);
  }

  lemma {:induction false} RunsWakeup(ss: seq<Sys>, steps: seq<PStep>, i: nat, c: int)
    requires OneConsumer(ss, steps, c) && i < |ss|
    ensures Wakeup(ss[i], c)
  {
    if i > 0 {
      RunsWakeup(ss, steps, i - 1, c);
      PRunInv(ss, steps, i - 1);
      WakeupNext(ss, steps, i, c);
    } else {
      assert PStateOf(ss, steps, 0);
      WakeupStart(ss, steps, c);
    }
  }
}
