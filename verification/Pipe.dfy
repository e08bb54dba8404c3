/** What readers and writers of a pipe can rely on, in every interleaving. */
module Pipe {
  import opened SchedulerSpec
  import opened Kernel
  import opened KernelInvariant
  import opened KernelSteps
  import opened KernelRuns
  import opened KernelFacts
  import opened PipeSteps

  /** Stream integrity: what has been popped, followed by the queue, is the completed writes
      in order of completion, each contiguous, then the lock holder's unfinished write; and
      what has been popped is the completed reads in order, then the holder's unfinished read. */
  lemma StreamIntegrity(ss: seq<Sys>, steps: seq<PStep>, i: nat)
    requires IsPipeRun(ss, steps) && i < |ss|
    ensures ss[i].popped + ss[i].q == Flatten(ss[i].written) + PartialWrite(ss[i])
    ensures ss[i].popped == Flatten(ss[i].delivered) + PartialRead(ss[i])
  {
    PRunInv(ss, steps, i);
  }

  /** While nobody is inside the critical section, nothing is lost, repeated or reordered. */
  lemma QuietPipe(ss: seq<Sys>, steps: seq<PStep>, i: nat)
    requires IsPipeRun(ss, steps) && i < |ss|
    requires forall t :: t in ss[i].calls ==> !InsideSection(ss[i].calls[t])
    ensures Flatten(ss[i].delivered) + ss[i].q == Flatten(ss[i].written)
  {
    PRunInv(ss, steps, i);
    var s := ss[i];
    PartialNone(s);
    assert Flatten(s.delivered) + [] == Flatten(s.delivered) && Flatten(s.written) + [] == Flatten(s.written);
  }

  /** dequeue never pops an empty queue and never takes more than was there when it began. */
  lemma PopAlwaysPossible(ss: seq<Sys>, steps: seq<PStep>, i: nat, t: int)
    requires IsPipeRun(ss, steps) && i < |ss| && t in ss[i].calls && ss[i].calls[t].Draining?
    ensures var call := ss[i].calls[t]; |call.got| <= call.count && call.count - |call.got| <= |ss[i].q|
  {
    PRunInv(ss, steps, i);
    assert CallOk(ss[i].g, ss[i].mtx, ss[i].cond, ss[i].q, t, ss[i].calls[t]);
  }

  predicate OwnsQueue(s: Sys) { s.mtx in s.g.mutexes && s.g.mutexes[s.mtx].owner == s.g.s.running }

  /** A thread inside write or read that executes its own code can always take the next step
      of the call, and inside the critical section it owns the mutex. */
  lemma CallNeverStuck(ss: seq<Sys>, steps: seq<PStep>, i: nat)
    requires IsPipeRun(ss, steps) && i < |ss| && InCode(ss[i].g)
    ensures NextStepEnabled(ss[i])
  {
    PRunInv(ss, steps, i);
    NextStep(ss[i]);
  }

  /** The running thread owns the queue's lock where it must, and its next step is enabled. */
  predicate NextStepEnabled(s: Sys)
    requires s.g.s.running in s.g.threads
  {
    match CallOf(s, s.g.s.running)
    case Outside => true
    case Notifying(_) => CanStep(s, Notify)
    case Writing(data, pushed) => OwnsQueue(s) && CanStep(s, if pushed < |data| then Push else EndWrite)
    case Reading(_) => OwnsQueue(s) && CanStep(s, if s.q == [] then AwaitData else StartDrain)
    case Draining(count, got) => OwnsQueue(s) && CanStep(s, if |got| < count then Pop else EndRead)
  }

  lemma NextStep(s: Sys)
    requires PInv(s) && InCode(s.g)
    ensures NextStepEnabled(s)
  {
    RunnerOk(s);
    if s.mtx in Me(s.g).holds { HolderOwns(s.g, s.mtx, s.g.s.running); }
  }

  /** Whenever the consumer sleeps on the condition although the queue holds data, some
      producer that has pushed is still on its way to notifyOne. */
  lemma NoLostWakeup(ss: seq<Sys>, steps: seq<PStep>, i: nat, c: int)
    requires OneConsumer(ss, steps, c) && i < |ss|
    requires ss[i].cond in ss[i].g.conds && c in ss[i].g.conds[ss[i].cond] && ss[i].q != []
    ensures exists p :: p in ss[i].calls && OwesNotify(ss[i].calls[p])
  {
    RunsWakeup(ss, steps, i, c);
  }
}
