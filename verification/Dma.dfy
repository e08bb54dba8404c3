/** The two DMA channels of the chipset, over a RAM device. */
module Dma {
  import opened MachineWords
  import opened DmaMemory
  import opened DmaChannels

  const CHANNEL_COUNT := 2

  /** Interrupt sources, as bits of the pending register. */
  const DMA1: bv32 := 0x10

  /** An accepted command starts its job; a busy channel ignores it. */
  lemma AcceptedProgress(ram: Ram, c: Channel, val: Addr, j: Job)
    requires JobOk(ram, j) && Holds(ram, j, 0) && c.source == j.from && c.destination == j.to
    requires val >= 0x8000_0000 && val % 0x100_0000 == |j.bytes|
    ensures CommandStore(c, val).taken <==> c.status < 0x8000_0000
    ensures CommandStore(c, val).taken ==> Progress(ram, CommandStore(c, val).channel, j, 0)
  {
  }

  // ---- both channels ----------------------------------------------------------

  datatype Engine = Engine(ram: Ram, channels: seq<Channel>, pending: bv32)

  /** DMA1 << index */
  function Source(index: nat): bv32
    requires index < CHANNEL_COUNT
  {
    if index == 0 then DMA1 else DMA1 << 1
  }

  function Raise(pending: bv32, raised: bool, source: bv32): bv32 { if raised then pending | source else pending }

  predicate IsEngine(e: Engine) { |e.channels| == CHANNEL_COUNT && Small(e.ram) }

  function IncrementOne(e: Engine, index: nat): (r: Engine)
    requires IsEngine(e) && index < CHANNEL_COUNT
  {
    var r := Advance(e.ram, e.channels[index]);
    Engine(r.ram, e.channels[index := r.channel], Raise(e.pending, r.raised, Source(index)))
  }

  lemma AdvanceSize(ram: Ram, c: Channel)
    requires Small(ram)
    ensures Advance(ram, c).ram.base == ram.base && |Advance(ram, c).ram.data| == |ram.data|
  {
  }

  function IncrementBoth(e: Engine): Engine
    requires IsEngine(e)
  {
    AdvanceSize(e.ram, e.channels[0]);
    IncrementOne(IncrementOne(e, 0), 1)
  }

  function Total(j: Job): nat { Steps(j.to, |j.bytes|) }

  predicate ProgressAt(ram: Ram, c: Channel, j: Job, k: nat, done: nat) {
    Progress(ram, c, j, done) && Steps(j.to + done, |j.bytes| - done) == Total(j) - k
  }

  /** A channel k increments into its job: under way, or finished. */
  ghost predicate ChannelAt(ram: Ram, c: Channel, job: Option<Job>, k: nat) {
    match job
    case None => !IsActive(c.status)
    case Some(j) => if k < Total(j) then exists done: nat :: ProgressAt(ram, c, j, k, done) else Finished(ram, c, j)
  }

  predicate Completes(job: Option<Job>, k: nat) { job.Some? && k + 1 == Total(job.value) }

  /** The destinations overlap neither each other nor a source. */
  predicate JobsApart(a: Option<Job>, b: Option<Job>) {
    a.Some? && b.Some? ==>
      var i, j := a.value, b.value;
      && Apart(i.to, |i.bytes|, j.to, |j.bytes|)
      && Apart(i.to, |i.bytes|, j.from, |j.bytes|)
      && Apart(j.to, |j.bytes|, i.from, |i.bytes|)
  }

  /** What one increment does to a channel with this job. */
  ghost predicate Stepped(ram: Ram, job: Option<Job>, k: nat, r: Advanced) {
    && ChannelAt(r.ram, r.channel, job, k + 1)
    && (r.raised <==> Completes(job, k))
    && (if job.Some? then SameOutside(ram, r.ram, job.value.to, |job.value.bytes|) else r.ram == ram)
  }

  lemma ChannelStep(ram: Ram, c: Channel, job: Option<Job>, k: nat) returns (r: Advanced)
    requires Small(ram) && ChannelAt(ram, c, job, k)
    ensures r == Advance(ram, c)
    ensures Stepped(ram, job, k, r)
  {
    if job.Some? && k < Total(job.value) {
      r := JobStep(ram, c, job.value, k);
    } else {
      r := Advanced(ram, c, false);
    }
  }

  lemma JobStep(ram: Ram, c: Channel, j: Job, k: nat) returns (r: Advanced)
    requires Small(ram) && k < Total(j) && ChannelAt(ram, c, Some(j), k)
    ensures r == Advance(ram, c)
    ensures Stepped(ram, Some(j), k, r)
  {
    var done: nat :| ProgressAt(ram, c, j, k, done);
    r := AdvanceProgress(ram, c, j, done);
    if !r.raised { assert ProgressAt(r.ram, r.channel, j, k + 1, done + Amount(c)); }
  }

  /** Writes elsewhere do not disturb a job. */
  lemma Undisturbed(ram: Ram, ram1: Ram, c: Channel, job: Option<Job>, k: nat)
    requires ChannelAt(ram, c, job, k) && ram1.base == ram.base && |ram1.data| == |ram.data|
    requires job.Some? ==> Untouched(ram, ram1, job.value)
    ensures ChannelAt(ram1, c, job, k)
  {
    if job.Some? && k < Total(job.value) {
      var done: nat :| ProgressAt(ram, c, job.value, k, done);
      RegionPrefix(ram, job.value.to, done, |job.value.bytes|);
      RegionPrefix(ram1, job.value.to, done, |job.value.bytes|);
      assert ProgressAt(ram1, c, job.value, k, done);
    }
  }

  /** Neither region of the job changes. */
  predicate Untouched(ram: Ram, ram1: Ram, j: Job) {
    && ram1.base == ram.base && |ram1.data| == |ram.data|
    && Inside(ram, j.from, |j.bytes|) && Inside(ram, j.to, |j.bytes|)
    && Region(ram1, j.from, |j.bytes|) == Region(ram, j.from, |j.bytes|)
    && Region(ram1, j.to, |j.bytes|) == Region(ram, j.to, |j.bytes|)
  }

  lemma WritesElsewhere(ram: Ram, ram1: Ram, a: Option<Job>, b: Option<Job>)
    requires JobsApart(a, b) && (b.Some? ==> JobOk(ram, b.value))
    requires if a.Some? then SameOutside(ram, ram1, a.value.to, |a.value.bytes|) else ram1 == ram
    ensures b.Some? ==> Untouched(ram, ram1, b.value)
  {
    if a.Some? && b.Some? {
      RegionKept(ram, ram1, a.value.to, |a.value.bytes|, b.value.from, |b.value.bytes|);
      RegionKept(ram, ram1, a.value.to, |a.value.bytes|, b.value.to, |b.value.bytes|);
    }
  }

  /** The channels are k and l increments into their jobs. */
  ghost predicate EngineAt(e: Engine, jobs: seq<Option<Job>>, k: nat, l: nat) {
    && IsEngine(e) && |jobs| == CHANNEL_COUNT && JobsApart(jobs[0], jobs[1])
    && ChannelAt(e.ram, e.channels[0], jobs[0], k) && ChannelAt(e.ram, e.channels[1], jobs[1], l)
  }

  lemma ChannelJobOk(ram: Ram, c: Channel, job: Option<Job>, k: nat)
    requires ChannelAt(ram, c, job, k) && job.Some?
    ensures JobOk(ram, job.value)
  {
  }

  /** One channel's turn: it moves on, and the other stays where it was. */
  lemma TurnMoves(ram: Ram, c: Channel, mine: Option<Job>, k: nat, d: Channel, other: Option<Job>, l: nat)
    returns (r: Advanced)
    requires Small(ram) && JobsApart(mine, other) && ChannelAt(ram, c, mine, k) && ChannelAt(ram, d, other, l)
    ensures r == Advance(ram, c)
    ensures Small(r.ram) && Stepped(ram, mine, k, r) && ChannelAt(r.ram, d, other, l)
  {
    r := ChannelStep(ram, c, mine, k);
    if other.Some? { ChannelJobOk(ram, d, other, l); }
    WritesElsewhere(ram, r.ram, mine, other);
    Undisturbed(ram, r.ram, d, other, l);
  }

  lemma FirstTurn(e: Engine, jobs: seq<Option<Job>>, k: nat, l: nat) returns (r: Advanced, e1: Engine)
    requires EngineAt(e, jobs, k, l)
    ensures e1 == IncrementOne(e, 0) == Engine(r.ram, [r.channel, e.channels[1]], Raise(e.pending, r.raised, Source(0)))
    ensures Small(r.ram) && Stepped(e.ram, jobs[0], k, r) && ChannelAt(r.ram, e.channels[1], jobs[1], l)
  {
    r := TurnMoves(e.ram, e.channels[0], jobs[0], k, e.channels[1], jobs[1], l);
    e1 := Engine(r.ram, [r.channel, e.channels[1]], Raise(e.pending, r.raised, Source(0)));
  }

  lemma SecondTurn(e: Engine, jobs: seq<Option<Job>>, k: nat, l: nat) returns (r: Advanced, e1: Engine)
    requires IsEngine(e) && |jobs| == CHANNEL_COUNT && JobsApart(jobs[1], jobs[0])
    requires ChannelAt(e.ram, e.channels[0], jobs[0], k) && ChannelAt(e.ram, e.channels[1], jobs[1], l)
    ensures e1 == IncrementOne(e, 1) == Engine(r.ram, [e.channels[0], r.channel], Raise(e.pending, r.raised, Source(1)))
    ensures Small(r.ram) && Stepped(e.ram, jobs[1], l, r) && ChannelAt(r.ram, e.channels[0], jobs[0], k)
  {
    r := TurnMoves(e.ram, e.channels[1], jobs[1], l, e.channels[0], jobs[0], k);
    e1 := Engine(r.ram, [e.channels[0], r.channel], Raise(e.pending, r.raised, Source(1)));
  }

  /** Both turns, one after the other. */
  lemma BothTurns(e: Engine, jobs: seq<Option<Job>>, k: nat, l: nat) returns (r: Advanced, q: Advanced)
    requires EngineAt(e, jobs, k, l)
    ensures IncrementBoth(e) ==
      Engine(q.ram, [r.channel, q.channel], Raise(Raise(e.pending, r.raised, Source(0)), q.raised, Source(1)))
    ensures Small(q.ram) && Stepped(e.ram, jobs[0], k, r) && Stepped(r.ram, jobs[1], l, q)
    ensures ChannelAt(q.ram, r.channel, jobs[0], k + 1)
  {
    var e1;
    r, e1 := FirstTurn(e, jobs, k, l);
    q, e1 := SecondTurn(e1, jobs, k + 1, l);
  }

  /** One increment moves both channels on, and raises exactly the interrupts of the jobs it
      finishes. */
  lemma IncrementMoves(e: Engine, jobs: seq<Option<Job>>, k: nat, l: nat) returns (e2: Engine)
    requires EngineAt(e, jobs, k, l)
    ensures e2 == IncrementBoth(e)
    ensures EngineAt(e2, jobs, k + 1, l + 1)
    ensures PendingAfter(e.pending, e2.pending, Completes(jobs[0], k), Completes(jobs[1], l))
  {
    e2 := BothMove(e, jobs, k, l);
    BothRaised(e.pending, Completes(jobs[0], k), Completes(jobs[1], l));
  }

  lemma BothMove(e: Engine, jobs: seq<Option<Job>>, k: nat, l: nat) returns (e2: Engine)
    requires EngineAt(e, jobs, k, l)
    ensures e2 == IncrementBoth(e)
    ensures EngineAt(e2, jobs, k + 1, l + 1)
    ensures e2.pending == Raise(Raise(e.pending, Completes(jobs[0], k), Source(0)), Completes(jobs[1], l), Source(1))
  {
    var r, q := BothTurns(e, jobs, k, l);
    e2 := Engine(q.ram, [r.channel, q.channel], Raise(Raise(e.pending, r.raised, Source(0)), q.raised, Source(1)));
  }

  /** The first channel goes first: what it copies the second can copy on in the same increment. */
  lemma CopiedOn(e: Engine)
    requires IsEngine(e) && e.ram.base + |e.ram.data| <= WORD
    requires var c, d := e.channels[0], e.channels[1]; var n := Amount(c);
      && IsActive(c.status) && IsActive(d.status) && 0 < n == Amount(d) && d.nextSource == c.nextDestination
      && Inside(e.ram, c.nextSource, n) && Inside(e.ram, c.nextDestination, n) && Inside(e.ram, d.nextDestination, n)
    ensures var c, d := e.channels[0], e.channels[1]; var r := IncrementBoth(e).ram;
      && Inside(r, d.nextDestination, Amount(c))
      && Region(r, d.nextDestination, Amount(c)) == Region(e.ram, c.nextSource, Amount(c))
  {
    var c, d := e.channels[0], e.channels[1];
    var ram1 := CopyInside(e.ram, c.nextSource, c.nextDestination, Amount(c));
    var ram2 := CopyInside(ram1, d.nextSource, d.nextDestination, Amount(d));
    AdvanceSize(e.ram, c);
  }

  /** Each channel has its own interrupt: bit 4 for the first, bit 5 for the second. */
  predicate PendingAfter(before: bv32, after: bv32, first: bool, second: bool) {
    var p: bv32 := if first then before | 0x10 else before;
    after == if second then p | 0x20 else p
  }

  lemma BothRaised(pending: bv32, first: bool, second: bool)
    ensures PendingAfter(pending, Raise(Raise(pending, first, Source(0)), second, Source(1)), first, second)
  {
    Sources();
  }

  lemma Sources()
    ensures Source(0) == 0x10 && Source(1) == 0x20
  {
  }

  /** A channel's turn writes nowhere but to its job's destination. */
  lemma TurnKeeps(ram: Ram, r: Advanced, job: Option<Job>, k: nat, a: int)
    requires Stepped(ram, job, k, r) && ram.base <= a < ram.base + |ram.data|
    requires job.Some? ==> !(job.value.to <= a < job.value.to + |job.value.bytes|)
    ensures SameShape(ram, r.ram) && At(r.ram, a) == At(ram, a)
  {
  }

  /** Bytes outside every destination stay as they were. */
  lemma IncrementWritesOnlyDestinations(e: Engine, jobs: seq<Option<Job>>, k: nat, l: nat, a: int)
    requires EngineAt(e, jobs, k, l) && e.ram.base <= a < e.ram.base + |e.ram.data|
    requires forall i :: 0 <= i < 2 && jobs[i].Some? ==> !(jobs[i].value.to <= a < jobs[i].value.to + |jobs[i].value.bytes|)
    ensures var ram1 := IncrementBoth(e).ram; SameShape(e.ram, ram1) && At(ram1, a) == At(e.ram, a)
  {
    var r, q := BothTurns(e, jobs, k, l);
    TurnKeeps(e.ram, r, jobs[0], k, a);
    TurnKeeps(r.ram, q, jobs[1], l, a);
  }

  // ---- one transfer among whatever else goes on --------------------------------

  /** What channel i finds when its turn comes, within an increment. */
  function BeforeTurn(e: Engine, i: nat): (r: Engine)
    requires IsEngine(e) && i < CHANNEL_COUNT
    ensures IsEngine(r) && r.channels[i] == e.channels[i]
  {
    AdvanceSize(e.ram, e.channels[0]);
    if i == 0 then e else IncrementOne(e, 0)
  }

  /** A transfer under way does not depend on the other registers of its channel. */
  predicate SameTransfer(c: Channel, d: Channel) {
    && d.status == c.status && d.nextSource == c.nextSource && d.nextDestination == c.nextDestination
    && d.uint32Transfer == c.uint32Transfer
  }

  /** From one increment to the next.  The other channel may start, go on, end, fail or be
      cancelled, and the processor may write to memory and registers, as long as nobody else
      writes to the job's regions or changes the transfer. */
  predicate Spares(e: Engine, next: Engine, i: nat, j: Job)
    requires IsEngine(e) && i < CHANNEL_COUNT
  {
    && IsEngine(next) && SameTransfer(IncrementBoth(e).channels[i], next.channels[i])
    && Untouched(e.ram, BeforeTurn(e, i).ram, j)
    && Untouched(Advance(BeforeTurn(e, i).ram, e.channels[i]).ram, next.ram, j)
  }

  predicate SparingRun(es: seq<Engine>, i: nat, j: Job) {
    && i < CHANNEL_COUNT && (forall k :: 0 <= k < |es| ==> IsEngine(es[k]))
    && forall k :: 0 < k < |es| ==> Spares(es[k - 1], es[k], i, j)
  }

  lemma TurnOf(e: Engine, i: nat)
    requires IsEngine(e) && i < CHANNEL_COUNT
    ensures var r := Advance(BeforeTurn(e, i).ram, e.channels[i]);
      && IncrementBoth(e).channels[i] == r.channel
      && (r.raised ==> IncrementBoth(e).pending & Source(i) == Source(i))
  {
    AdvanceSize(e.ram, e.channels[0]);
    var e1 := IncrementOne(e, 0);
    if i == 0 { RaisedStays(e.pending, Source(0), Advance(e1.ram, e1.channels[1]).raised, Source(1)); }
  }

  lemma RaisedStays(pending: bv32, source: bv32, raised: bool, other: bv32)
    ensures Raise(pending | source, raised, other) & source == source
  {
  }

  lemma ChannelMoved(ram: Ram, ram1: Ram, c: Channel, d: Channel, j: Job, k: nat)
    requires ChannelAt(ram, c, Some(j), k) && SameTransfer(c, d) && Untouched(ram, ram1, j)
    ensures ChannelAt(ram1, d, Some(j), k)
  {
    Undisturbed(ram, ram1, c, Some(j), k);
    if k < Total(j) {
      var done: nat :| ProgressAt(ram1, c, j, k, done);
      assert ProgressAt(ram1, d, j, k, done);
    }
  }

  lemma SparedTurn(e: Engine, i: nat, j: Job, k: nat) returns (r: Advanced)
    requires IsEngine(e) && i < CHANNEL_COUNT && Untouched(e.ram, BeforeTurn(e, i).ram, j)
    requires k < Total(j) && ChannelAt(e.ram, e.channels[i], Some(j), k)
    ensures r == Advance(BeforeTurn(e, i).ram, e.channels[i]) && IncrementBoth(e).channels[i] == r.channel
    ensures ChannelAt(r.ram, r.channel, Some(j), k + 1)
    ensures k + 1 == Total(j) ==> IncrementBoth(e).pending & Source(i) == Source(i)
  {
    var ram1 := BeforeTurn(e, i).ram;
    Undisturbed(e.ram, ram1, e.channels[i], Some(j), k);
    r := JobStep(ram1, e.channels[i], j, k);
    TurnOf(e, i);
  }

  /** One increment moves the transfer on, whatever else happens. */
  lemma SparedMoves(e: Engine, next: Engine, i: nat, j: Job, k: nat)
    requires IsEngine(e) && i < CHANNEL_COUNT && Spares(e, next, i, j)
    requires k < Total(j) && ChannelAt(e.ram, e.channels[i], Some(j), k)
    ensures ChannelAt(next.ram, next.channels[i], Some(j), k + 1)
  {
    var r := SparedTurn(e, i, j, k);
    SparesAfter(e, next, i, j, r);
    ChannelMoved(r.ram, next.ram, r.channel, next.channels[i], j, k + 1);
  }

  lemma SparesAfter(e: Engine, next: Engine, i: nat, j: Job, r: Advanced)
    requires IsEngine(e) && i < CHANNEL_COUNT && Spares(e, next, i, j)
    requires r == Advance(BeforeTurn(e, i).ram, e.channels[i]) && IncrementBoth(e).channels[i] == r.channel
    ensures i < |next.channels| && SameTransfer(r.channel, next.channels[i]) && Untouched(r.ram, next.ram, j)
  {
  }

  /** And the last one raises the interrupt. */
  lemma SparedRaises(e: Engine, next: Engine, i: nat, j: Job, k: nat)
    requires IsEngine(e) && i < CHANNEL_COUNT && Spares(e, next, i, j)
    requires k + 1 == Total(j) && ChannelAt(e.ram, e.channels[i], Some(j), k)
    ensures IncrementBoth(e).pending & Source(i) == Source(i)
  {
    var r := SparedTurn(e, i, j, k);
  }

  lemma {:induction false} RunMoves(es: seq<Engine>, i: nat, j: Job, k: nat)
    requires SparingRun(es, i, j) && k < |es| && k <= Total(j) && ChannelAt(es[0].ram, es[0].channels[i], Some(j), 0)
    ensures ChannelAt(es[k].ram, es[k].channels[i], Some(j), k)
    decreases k
  {
    if k > 0 {
      RunMoves(es, i, j, k - 1);
      RunStep(es, i, j, k);
    }
  }

  lemma RunStep(es: seq<Engine>, i: nat, j: Job, k: nat)
    requires SparingRun(es, i, j) && 0 < k < |es| && k <= Total(j)
    requires ChannelAt(es[k - 1].ram, es[k - 1].channels[i], Some(j), k - 1)
    ensures ChannelAt(es[k].ram, es[k].channels[i], Some(j), k)
  {
    assert Spares(es[k - 1], es[k], i, j);
    SparedMoves(es[k - 1], es[k], i, j, k - 1);
  }

  /** A job finishes with its own increment, no later than number ceil(N / 4) + 1: the
      destination equals the source, the channel is inactive and its interrupt pending. */
  lemma TransferCompletes(es: seq<Engine>, i: nat, j: Job)
    requires SparingRun(es, i, j) && 0 < Total(j) < |es| && Progress(es[0].ram, es[0].channels[i], j, 0)
    ensures Total(j) <= (|j.bytes| + 3) / 4 + 1
    ensures forall k: nat :: k <= Total(j) ==> ChannelAt(es[k].ram, es[k].channels[i], Some(j), k)
    ensures var e := es[Total(j)]; Finished(e.ram, e.channels[i], j) && Region(e.ram, j.to, |j.bytes|) == j.bytes
    ensures IncrementBoth(es[Total(j) - 1]).pending & (if i == 0 then 0x10 else 0x20) != 0
  {
    JobStarts(es[0].ram, es[0].channels[i], j);
    forall k: nat | k <= Total(j) ensures ChannelAt(es[k].ram, es[k].channels[i], Some(j), k) {
      RunMoves(es, i, j, k);
    }
    assert ChannelAt(es[Total(j)].ram, es[Total(j)].channels[i], Some(j), Total(j));
    RunRaises(es, i, j, Total(j) - 1);
  }

  lemma JobStarts(ram: Ram, c: Channel, j: Job)
    requires Progress(ram, c, j, 0) && 0 < Total(j)
    ensures ChannelAt(ram, c, Some(j), 0)
  {
    assert ProgressAt(ram, c, j, 0, 0);
  }

  lemma RunRaises(es: seq<Engine>, i: nat, j: Job, k: nat)
    requires SparingRun(es, i, j) && k + 1 < |es| && k + 1 == Total(j) && ChannelAt(es[0].ram, es[0].channels[i], Some(j), 0)
    ensures IncrementBoth(es[k]).pending & Source(i) == Source(i)
  {
    RunMoves(es, i, j, k);
    assert Spares(es[k + 1 - 1], es[k + 1], i, j);
    SparedRaises(es[k], es[k + 1], i, j, k);
  }

  /** Where the channel's next increment would write. */
  predicate WritesApart(c: Channel, j: Job) {
    IsActive(c.status) ==>
      Apart(c.nextDestination, Amount(c), j.from, |j.bytes|) && Apart(c.nextDestination, Amount(c), j.to, |j.bytes|)
  }

  /** A turn that writes apart from a job leaves it untouched, in range or not. */
  lemma TurnSpares(ram: Ram, c: Channel, j: Job)
    requires JobOk(ram, j) && WritesApart(c, j)
    ensures Untouched(ram, Advance(ram, c).ram, j)
  {
    if IsActive(c.status) && Copy(ram, c.nextSource, c.nextDestination, Amount(c)).Done? {
      var n, to := Amount(c), c.nextDestination;
      WrittenInside(ram, c.nextDestination, n);
      var bytes := Slice(ram, c.nextSource, n);
      var ram1 := Write(ram, Minus(to, ram.base), bytes);
      WriteAt(ram, to, bytes);
      RegionKept(ram, ram1, to, n, j.from, |j.bytes|);
      RegionKept(ram, ram1, to, n, j.to, |j.bytes|);
    }
  }

  lemma WrittenInside(ram: Ram, a: Addr, n: nat)
    requires Small(ram) && ram.base + |ram.data| <= WORD && n <= 4 && InRange(ram, a, n)
    ensures Inside(ram, a, n) && Minus(a, ram.base) == a - ram.base
  {
  }

  /** So an increment after which nothing is stored in the job's regions spares the job if the
      other channel's next write is apart from them. */
  lemma ApartSpares(e: Engine, next: Engine, i: nat, j: Job)
    requires IsEngine(e) && IsEngine(next) && i < CHANNEL_COUNT && JobOk(e.ram, j) && WritesApart(e.channels[1 - i], j)
    requires SameTransfer(IncrementBoth(e).channels[i], next.channels[i]) && Untouched(IncrementBoth(e).ram, next.ram, j)
    ensures Spares(e, next, i, j)
  {
    AdvanceSize(e.ram, e.channels[0]);
    var e1 := IncrementOne(e, 0);
    if i == 0 {
      TurnSpares(e1.ram, e1.channels[1], j);
      UntouchedTwice(e1.ram, IncrementBoth(e).ram, next.ram, j);
    } else {
      TurnSpares(e.ram, e.channels[0], j);
    }
  }

  lemma UntouchedTwice(a: Ram, b: Ram, c: Ram, j: Job)
    requires Untouched(a, b, j) && Untouched(b, c, j)
    ensures Untouched(a, c, j)
  {
  }

  /** A job that is apart from this one is such a channel's. */
  lemma OtherJobApart(ram: Ram, c: Channel, other: Job, k: nat, j: Job)
    requires ChannelAt(ram, c, Some(other), k) && JobsApart(Some(other), Some(j))
    ensures WritesApart(c, j)
  {
    if k < Total(other) {
      var done: nat :| ProgressAt(ram, c, other, k, done);
      ActiveSize(|other.bytes| - done);
    }
  }

  // ---- the other ways a transfer ends -----------------------------------------

  /** What a command does to the registers, in their own numbers: bit 31 starts or cancels, the low
      24 bits are the size. */
  lemma Commands(c: Channel, val: Addr)
    ensures var s, active, size := CommandStore(c, val), c.status >= 0x8000_0000, val % 0x100_0000;
      && (s.taken <==> val >= 0x8000_0000 && (active <==> size == 0))
      && (s.raised <==> s.taken && size == 0)
      && (!s.taken ==> s.channel == c)
      && (s.taken && size > 0 ==>
            s.channel == c.(nextSource := c.source, nextDestination := c.destination, status := 0x8000_0000 + size, command := size,
                            uint32Transfer := c.source % 4 == 0 && c.destination % 4 == 0 && size % 4 == 0))
      && (s.taken && size == 0 ==>
            s.channel == c.(command := 0, status := c.status - 0x8000_0000
                                                    + if c.status / 0x1000_0000 % 2 == 1 then 0 else 0x1000_0000))
  {
  }

  /** Cancelling: the channel stops, says so, and raises its interrupt; a channel that is not
      active ignores it. */
  lemma CancelStops(ram: Ram, c: Channel, val: Addr)
    requires Small(ram) && IsActive(val) && SizeOf(val) == 0
    ensures var s := CommandStore(c, val);
      (s.taken <==> IsActive(c.status)) && (s.raised <==> s.taken) && !IsActive(s.channel.status)
      && (s.taken ==> HasBit(s.channel.status, CANCELLED) && SizeOf(s.channel.status) == SizeOf(c.status))
      && Advance(ram, s.channel) == Advanced(ram, s.channel, false)
  {
  }

  /** An out-of-range error does not end a transfer: the channel stays active, and every
      further increment raises the interrupt again and copies nothing. */
  lemma ErrorsRepeat(ram: Ram, c: Channel)
    requires Small(ram) && IsActive(c.status)
    requires !InRange(ram, c.nextSource, Amount(c)) || !InRange(ram, c.nextDestination, Amount(c))
    ensures var r := Advance(ram, c);
      r.ram == ram && r.raised && IsActive(r.channel.status)
      && r.channel.status / (if InRange(ram, c.nextSource, Amount(c)) then 0x2000_0000 else 0x4000_0000) % 2 == 1
      && Advance(r.ram, r.channel) == r
  {
    ErrorBit(c.status, SOURCE_ERROR);
    ErrorBit(c.status, DESTINATION_ERROR);
  }

  lemma ErrorBit(status: Addr, bit: int)
    requires bit == SOURCE_ERROR || bit == DESTINATION_ERROR
    ensures var s := SetBit(status, bit);
      0 <= s < WORD && SizeOf(s) == SizeOf(status) && IsActive(s) == IsActive(status) && HasBit(s, bit)
  {
  }

  // ---- the objects ------------------------------------------------------------

  class RamMemoryDevice {
    const base: Addr
    const data: array<Byte>

    ghost function View(): Ram
      reads data
    {
      Ram(base, data[..])
    }

    constructor (base: Addr, size: nat)
      ensures this.base == base && data.Length == size && fresh(data)
    {
      this.base := base;
      data := new Byte[size](_ => 0);
    }

    method AccessAddress(addr: Addr, size: Addr) returns (index: Option<nat>)
      ensures index == if InRange(View(), addr, size) then Some(Minus(addr, base)) else None
    {
      var i := Minus(addr, base);
      if i < data.Length && Plus(i, size) <= data.Length { index := Some(i); } else { index := None; }
    }

    method LoadData(addr: Addr, size: Addr) returns (bytes: Option<seq<Byte>>)
      requires Ends(View(), addr, size)
      ensures bytes == if InRange(View(), addr, size) then Some(Slice(View(), addr, size)) else None
    {
      var at := AccessAddress(addr, size);
      bytes := match at case None => None case Some(i) => Some(data[i..i + size]);
    }

    /** Copies byte by byte; `ok` is false where the source throws. */
    method StoreData(addr: Addr, src: seq<Byte>) returns (ok: bool)
      requires Ends(View(), addr, |src|) && |src| < WORD
      modifies data
      ensures ok == InRange(old(View()), addr, |src|)
      ensures View() == if ok then Write(old(View()), Minus(addr, base), src) else old(View())
    {
      var at := AccessAddress(addr, |src|);
      if at.None? { return false; }
      var k := 0;
      while k < |src|
        invariant k <= |src|
        invariant Write(View(), at.value + k, src[k..]) == Write(old(View()), at.value, src)
      {
        ghost var ram := View();
        data[at.value + k] := src[k];
        assert View() == ram.(data := ram.data[at.value + k := src[k]]);
        k := k + 1;
      }
      ok := true;
    }
  }

  class Chipset {
    const memory: RamMemoryDevice
    var channels: seq<Channel>
    var pending: bv32

    ghost predicate Valid()
      reads this, memory, memory.data
    {
      |channels| == CHANNEL_COUNT && Small(memory.View())
    }

    ghost function View(): Engine
      reads this, memory, memory.data
    {
      Engine(memory.View(), channels, pending)
    }

    constructor (memory: RamMemoryDevice)
      requires Small(memory.View())
      ensures Valid() && this.memory == memory && pending == 0
      ensures forall c :: c in channels ==> !IsActive(c.status)
    {
      this.memory := memory;
      channels := [Channel(0, 0, 0, 0, 0, 0, false), Channel(0, 0, 0, 0, 0, 0, false)];
      pending := 0;
    }

    method SetInterruptPending(source: bv32)
      modifies this`pending
      ensures pending == old(pending) | source
    {
      pending := pending | source;
    }

    method DMACommandStore(index: nat, val: Addr) returns (taken: bool)
      requires Valid()
      modifies this
      ensures Valid() && (index >= CHANNEL_COUNT ==> !taken && View() == old(View()))
      ensures index < CHANNEL_COUNT ==>
        var s := CommandStore(old(channels)[index], val);
        taken == s.taken && channels == old(channels)[index := s.channel]
        && pending == Raise(old(pending), s.raised, Source(index))
    {
      if index >= CHANNEL_COUNT || !IsActive(val) { return false; }
      var c := channels[index];
      if SizeOf(val) != 0 {
        if IsActive(c.status) { return false; }
        c := c.(nextSource := c.source, nextDestination := c.destination, status := Accepted(val));
        c := c.(uint32Transfer := WordAligned(c.nextSource, c.nextDestination, val));
      } else {
        if !IsActive(c.status) { return false; }
        c := c.(status := Deactivate(SetBit(c.status, CANCELLED)));
        SetInterruptPending(Source(index));
      }
      channels := channels[index := c.(command := SizeOf(val))];
      taken := true;
    }

    /** A load and a store: the error bit to set where one of them throws, otherwise 0. */
    method Transfer(from: Addr, to: Addr, size: Addr) returns (error: int)
      requires Valid() && size < SIZE_LIMIT
      modifies memory.data
      ensures var r := Copy(old(memory.View()), from, to, size);
        error == (match r case SourceThrew => SOURCE_ERROR case DestinationThrew => DESTINATION_ERROR case Done(_) => 0)
        && memory.View() == if r.Done? then r.ram else old(memory.View())
    {
      var bytes := memory.LoadData(from, size);
      if bytes.None? { return SOURCE_ERROR; }
      var stored := memory.StoreData(to, bytes.value);
      error := if stored then 0 else DESTINATION_ERROR;
    }

    method Update(index: nat, c: Channel, raised: bool)
      requires Valid() && index < CHANNEL_COUNT
      modifies this
      ensures Valid() && channels == old(channels)[index := c] && pending == Raise(old(pending), raised, Source(index))
    {
      channels := channels[index := c];
      if raised { SetInterruptPending(Source(index)); }
    }

    /** One channel's turn. */
    method Increment(index: nat)
      requires Valid() && index < CHANNEL_COUNT
      modifies this, memory.data
      ensures Valid()
      ensures var r := Advance(old(memory.View()), old(channels)[index]);
        memory.View() == r.ram && channels == old(channels)[index := r.channel]
        && pending == Raise(old(pending), r.raised, Source(index))
    {
      var c := channels[index];
      if !IsActive(c.status) { return; }
      AdvanceSize(memory.View(), c);
      var error := Transfer(c.nextSource, c.nextDestination, Amount(c));
      if error != 0 {
        Update(index, c.(status := SetBit(c.status, error)), true);
      } else {
        var d, raised := Finish(c);
        Update(index, d, raised);
      }
    }

    /** The registers of a channel whose bytes have been copied. */
    method Finish(c: Channel) returns (d: Channel, raised: bool)
      ensures (d, raised) == AfterCopy(c)
    {
      d, raised := c, false;
      var size := SizeOf(c.status);
      if c.uint32Transfer {
        d := d.(nextSource := Plus(d.nextSource, 4), nextDestination := Plus(d.nextDestination, 4));
        var status := Minus(d.status, 4);
        if SizeOf(status) == 0 {
          status := Deactivate(status);
          raised := true;
        }
        d := d.(status := status);
      } else if size <= 4 {
        d := d.(status := 0);
        raised := true;
      } else if c.nextDestination % 4 != 0 {
        var amount := 4 - c.nextDestination % 4;
        d := d.(nextSource := Plus(d.nextSource, amount), nextDestination := Plus(d.nextDestination, amount));
        d := d.(status := Minus(d.status, amount));
        d := d.(uint32Transfer := WordAligned(d.nextSource, d.nextDestination, d.status));
      } else {
        d := d.(nextSource := Plus(d.nextSource, 4), nextDestination := Plus(d.nextDestination, 4));
        d := d.(status := Minus(d.status, 4));
      }
    }

    method IncrementDMA()
      requires Valid()
      modifies this, memory.data
      ensures Valid() && View() == IncrementBoth(old(View()))
    {
      AdvanceSize(View().ram, channels[0]);
      for index := 0 to CHANNEL_COUNT
        invariant Valid()
        invariant index == 0 ==> View() == old(View())
        invariant index == 1 ==> View() == IncrementOne(old(View()), 0)
        invariant index == 2 ==> View() == IncrementBoth(old(View()))
      {
        AdvanceSize(View().ram, channels[index]);
        Increment(index);
      }
    }
  }
}
