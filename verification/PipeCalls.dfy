/** What one write or read of a pipe was asked for, and what it does, among all others. */
module PipeCalls {
  import opened SchedulerSpec
  import opened Kernel
  import opened KernelInvariant
  import opened KernelRuns
  import opened PipeSteps

  /** Thread r takes step i. */
  predicate Takes(ss: seq<Sys>, steps: seq<PStep>, i: nat, r: int) { i < |steps| && i < |ss| && ss[i].g.s.running == r }

  /** Between steps k and i thread r does not take `step`. */
  predicate NotBetween(ss: seq<Sys>, steps: seq<PStep>, k: nat, i: nat, r: int, step: PStep) {
    k < i && forall l: nat :: k < l < i && Takes(ss, steps, l, r) ==> steps[l] != step
  }

  /** The others leave the call of thread r as it is. */
  lemma OthersKeep(ss: seq<Sys>, steps: seq<PStep>, i: nat, r: int)
    requires IsPipeRun(ss, steps) && i < |steps| && ss[i].g.s.running != r
    ensures CallOf(ss[i + 1], r) == CallOf(ss[i], r)
  {
    assert PStateOf(ss, steps, i + 1);
  }

  lemma {:induction false} ReadingLasts(ss: seq<Sys>, steps: seq<PStep>, k: nat, i: nat, r: int, n: nat)
    requires IsPipeRun(ss, steps) && Takes(ss, steps, k, r) && steps[k] == BeginRead(n)
    requires i < |ss| && NotBetween(ss, steps, k, i, r, StartDrain)
    ensures CallOf(ss[i], r) == Reading(n)
    decreases i
  {
    assert PStateOf(ss, steps, i);
    if i > k + 1 {
      ReadingLasts(ss, steps, k, i - 1, r, n);
      assert Takes(ss, steps, i - 1, r) ==> steps[i - 1] != StartDrain;
      if ss[i - 1].g.s.running != r { OthersKeep(ss, steps, i - 1, r); }
    }
  }

  lemma {:induction false} WritingLasts(ss: seq<Sys>, steps: seq<PStep>, k: nat, i: nat, r: int, data: seq<Byte>)
    requires IsPipeRun(ss, steps) && Takes(ss, steps, k, r) && steps[k] == BeginWrite(data)
    requires i < |ss| && NotBetween(ss, steps, k, i, r, EndWrite)
    ensures CallOf(ss[i], r).Writing? && CallOf(ss[i], r).data == data
    decreases i
  {
    assert PStateOf(ss, steps, i);
    if i > k + 1 {
      WritingLasts(ss, steps, k, i - 1, r, data);
      assert Takes(ss, steps, i - 1, r) ==> steps[i - 1] != EndWrite;
      if ss[i - 1].g.s.running != r { OthersKeep(ss, steps, i - 1, r); }
    }
  }

  /** While a thread drains, nobody else touches the queue. */
  lemma QueueHeld(s: Sys, step: PStep, r: int)
    requires PInv(s) && CanStep(s, step) && CallOf(s, r).Draining? && s.g.s.running != r
    ensures PApply(s, step).q == s.q
  {
    BusyOwns(s, r);
    var t := s.g.s.running;
    if step.Push? || step.Pop? {
      assert CallOk(s.g, s.mtx, s.cond, s.q, t, s.calls[t]);
      HolderOwns(s.g, s.mtx, t);
    }
  }

  /** What a draining thread has, and then the queue, are the queue it found. */
  ghost predicate Drains(s: Sys, r: int, count: nat, q: seq<Byte>) {
    var call := CallOf(s, r);
    call.Draining? && call.count == count && call.got + s.q == q
  }

  lemma DrainsStep(s: Sys, step: PStep, r: int, count: nat, q: seq<Byte>)
    requires PInv(s) && CanStep(s, step) && Drains(s, r, count, q) && (s.g.s.running == r ==> step != EndRead)
    ensures Drains(PApply(s, step), r, count, q)
  {
    if s.g.s.running != r {
      QueueHeld(s, step, r);
    } else if step.Pop? {
      var call := CallOf(s, r);
      assert call.got + [s.q[0]] + s.q[1..] == call.got + s.q;
    }
  }

  lemma {:induction false} DrainingLasts(ss: seq<Sys>, steps: seq<PStep>, d: nat, i: nat, r: int, n: nat)
    requires IsPipeRun(ss, steps) && Takes(ss, steps, d, r) && steps[d] == StartDrain && CallOf(ss[d], r) == Reading(n)
    requires i < |ss| && NotBetween(ss, steps, d, i, r, EndRead)
    ensures Drains(ss[i], r, if n < |ss[d].q| then n else |ss[d].q|, ss[d].q)
    decreases i
  {
    assert PStateOf(ss, steps, i);
    if i > d + 1 {
      DrainingLasts(ss, steps, d, i - 1, r, n);
      PRunInv(ss, steps, i - 1);
      assert Takes(ss, steps, i - 1, r) ==> steps[i - 1] != EndRead;
      DrainsStep(ss[i - 1], steps[i - 1], r, if n < |ss[d].q| then n else |ss[d].q|, ss[d].q);
    } else {
      assert [] + ss[d].q == ss[d].q;
    }
  }

  /** A read of n bytes delivers the first of the bytes that are in the queue when it finds some:
      n of them, or all if there are fewer. */
  lemma ReadDelivers(ss: seq<Sys>, steps: seq<PStep>, k: nat, d: nat, j: nat, r: int, n: nat)
    requires IsPipeRun(ss, steps)
    requires Takes(ss, steps, k, r) && steps[k] == BeginRead(n)
    requires Takes(ss, steps, d, r) && steps[d] == StartDrain && NotBetween(ss, steps, k, d, r, StartDrain)
    requires Takes(ss, steps, j, r) && steps[j] == EndRead && NotBetween(ss, steps, d, j, r, EndRead)
    ensures var q := ss[d].q;
      && q != [] && ss[j + 1].delivered == ss[j].delivered + [q[..if n < |q| then n else |q|]]
  {
    ReadingLasts(ss, steps, k, d, r, n);
    DrainingLasts(ss, steps, d, j, r, n);
    assert PStateOf(ss, steps, d + 1) && PStateOf(ss, steps, j + 1);
    var call, q := CallOf(ss[j], r), ss[d].q;
    assert call.got == q[..|call.got|];
  }

  /** A write that is over has written what it was called with. */
  lemma WriteStores(ss: seq<Sys>, steps: seq<PStep>, k: nat, j: nat, r: int, data: seq<Byte>)
    requires IsPipeRun(ss, steps) && Takes(ss, steps, k, r) && steps[k] == BeginWrite(data)
    requires Takes(ss, steps, j, r) && steps[j] == EndWrite && NotBetween(ss, steps, k, j, r, EndWrite)
    ensures ss[j + 1].written == ss[j].written + [data]
  {
    WritingLasts(ss, steps, k, j, r, data);
    assert PStateOf(ss, steps, j + 1);
  }
}
