/** One DMA channel: its registers, what one increment does to them and to memory, and how a
    transfer in progress moves on.

    The status register holds the bytes to go in its low 24 bits, and above them whether the
    channel is active and what has gone wrong.  An increment moves a word, or a few bytes to
    align the destination, or the last bytes together, and raises the interrupt when nothing is
    left, but also at every error, after which it leaves all else as it was.  A command is taken
    if the channel is not busy, or cancels what it is doing.  Running and Progress say how far a
    job is, in registers and in memory, and Steps how many increments it still takes; Moves is
    what one increment makes of these.  The two channels side by side are in Dma.dfy. */
module DmaChannels {
  import opened MachineWords
  import opened DmaMemory

  const ACTIVE := 0x8000_0000
  const SOURCE_ERROR := 0x4000_0000
  const DESTINATION_ERROR := 0x2000_0000
  const CANCELLED := 0x1000_0000

  predicate HasBit(status: Addr, bit: int)
    requires bit > 0
  {
    status / bit % 2 == 1
  }

  function SetBit(status: Addr, bit: int): (r: int)
    requires bit > 0
  {
    if HasBit(status, bit) then status else status + bit
  }

  /** status & DDMAChannelSizeMask */
  function SizeOf(status: Addr): (n: int)
    ensures 0 <= n < SIZE_LIMIT
  {
    status % SIZE_LIMIT
  }

  predicate IsActive(status: Addr) { status >= ACTIVE }

  function Deactivate(status: Addr): Addr { if IsActive(status) then status - ACTIVE else status }

  /** val & (Active | SizeMask) */
  function Accepted(val: Addr): Addr { (if IsActive(val) then ACTIVE else 0) + SizeOf(val) }

  // ---- a channel --------------------------------------------------------------

  datatype Channel = Channel(
    source: Addr, destination: Addr, command: Addr, status: Addr,
    nextSource: Addr, nextDestination: Addr, uint32Transfer: bool)

  /** raised: the channel's interrupt was made pending. */
  datatype Advanced = Advanced(ram: Ram, channel: Channel, raised: bool)

  function WordAligned(a: int, b: int, c: int): bool { a % 4 == 0 && b % 4 == 0 && c % 4 == 0 }

  function Failed(ram: Ram, c: Channel, bit: int): Advanced
    requires bit == SOURCE_ERROR || bit == DESTINATION_ERROR
  {
    Advanced(ram, c.(status := SetBit(c.status, bit)), true)
  }

  /** Past `size` bytes, with the status given. */
  function Moved(c: Channel, size: Addr, status: Addr): Channel {
    c.(nextSource := Plus(c.nextSource, size), nextDestination := Plus(c.nextDestination, size), status := status)
  }

  /** How many bytes the next increment moves: the last ones together, an initial few to align
      the destination, four otherwise. */
  function Amount(c: Channel): (n: int)
    ensures 0 <= n <= 4
  {
    if c.uint32Transfer then 4
    else if SizeOf(c.status) <= 4 then SizeOf(c.status)
    else if c.nextDestination % 4 != 0 then 4 - c.nextDestination % 4
    else 4
  }

  /** The registers after the bytes have been moved. */
  function AfterCopy(c: Channel): (Channel, bool) {
    var left := Minus(c.status, Amount(c));
    if c.uint32Transfer then
      if SizeOf(left) == 0 then (Moved(c, 4, Deactivate(left)), true) else (Moved(c, 4, left), false)
    else if SizeOf(c.status) <= 4 then (c.(status := 0), true)
    else
      var d := Moved(c, Amount(c), left);
      (if c.nextDestination % 4 != 0 then d.(uint32Transfer := WordAligned(d.nextSource, d.nextDestination, left)) else d,
       false)
  }

  /** What follows the copy. */
  function AfterIncrement(ram: Ram, c: Channel, r: Copied): Advanced {
    match r
    case SourceThrew => Failed(ram, c, SOURCE_ERROR)
    case DestinationThrew => Failed(ram, c, DESTINATION_ERROR)
    case Done(ram1) => Advanced(ram1, AfterCopy(c).0, AfterCopy(c).1)
  }

  /** One channel's part of IncrementDMA. */
  function Advance(ram: Ram, c: Channel): Advanced
    requires Small(ram)
  {
    if !IsActive(c.status) then Advanced(ram, c, false)
    else AfterIncrement(ram, c, Copy(ram, c.nextSource, c.nextDestination, Amount(c)))
  }

  datatype Stored = Stored(channel: Channel, taken: bool, raised: bool)

  /** DMACommandStore, and the register write that follows when it returns true. */
  function CommandStore(c: Channel, val: Addr): Stored {
    if !IsActive(val) then Stored(c, false, false)
    else if SizeOf(val) != 0 then
      if IsActive(c.status) then Stored(c, false, false)
      else
        Stored(c.(nextSource := c.source, nextDestination := c.destination, status := Accepted(val),
                  uint32Transfer := WordAligned(c.source, c.destination, val), command := SizeOf(val)), true, false)
    else if IsActive(c.status) then
      Stored(c.(status := Deactivate(SetBit(c.status, CANCELLED)), command := SizeOf(val)), true, true)
    else Stored(c, false, false)
  }

  // ---- one transfer -----------------------------------------------------------

  /** The registers of a channel that has copied `done` bytes. */
  predicate Running(c: Channel, j: Job, done: nat) {
    && 0 < |j.bytes| < SIZE_LIMIT && done < |j.bytes|
    && c.status == ACTIVE + |j.bytes| - done
    && c.nextSource == j.from + done && c.nextDestination == j.to + done
    && (c.uint32Transfer ==> WordAligned(c.nextSource, c.nextDestination, |j.bytes| - done))
  }

  /** Bytes copied and bytes remaining always add up to the size of the job. */
  predicate Progress(ram: Ram, c: Channel, j: Job, done: nat) {
    JobOk(ram, j) && Running(c, j, done) && Holds(ram, j, done)
  }

  predicate Finished(ram: Ram, c: Channel, j: Job) {
    JobOk(ram, j) && Holds(ram, j, |j.bytes|) && c.status == 0
  }

  /** How many increments the rest of a transfer takes. */
  function Steps(to: int, left: nat): (n: nat)
    ensures left > 0 ==> 1 <= n <= (left + 3) / 4 + 1
  {
    if left == 0 then 0
    else if left <= 4 then 1
    else if to % 4 == 0 then (left + 3) / 4
    else 1 + (left - (4 - to % 4) + 3) / 4
  }

  lemma ActiveSize(left: nat)
    requires left < SIZE_LIMIT
    ensures SizeOf(ACTIVE + left) == left && IsActive(ACTIVE + left) && Deactivate(ACTIVE + left) == left
  {
  }

  /** What an increment does to the registers: it is one of the steps counted. */
  lemma AfterCopyRuns(c: Channel, j: Job, done: nat)
    requires Running(c, j, done) && j.from + |j.bytes| <= WORD && j.to + |j.bytes| <= WORD
    ensures var (d, raised), more := AfterCopy(c), done + Amount(c);
      done < more <= |j.bytes|
      && (raised <==> more == |j.bytes|)
      && (if raised then d.status == 0 else Running(d, j, more))
  {
    ActiveSize(|j.bytes| - done);
    ActiveSize(|j.bytes| - done - Amount(c));
  }

  lemma StepsDown(c: Channel, j: Job, done: nat)
    requires Running(c, j, done)
    ensures var more := done + Amount(c);
      more <= |j.bytes| && Steps(j.to + more, |j.bytes| - more) == Steps(j.to + done, |j.bytes| - done) - 1
  {
    ActiveSize(|j.bytes| - done);
  }

  /** What one increment of a transfer in progress does: it copies some more bytes, or the
      last of them and raises the interrupt. */
  predicate Moves(ram: Ram, c: Channel, j: Job, done: nat, r: Advanced)
    requires Running(c, j, done)
  {
    var more := done + Amount(c);
    && done < more <= |j.bytes| && SameOutside(ram, r.ram, j.to, |j.bytes|)
    && (r.raised <==> more == |j.bytes|)
    && (if r.raised then Finished(r.ram, r.channel, j) else Progress(r.ram, r.channel, j, more))
    && Steps(j.to + more, |j.bytes| - more) == Steps(j.to + done, |j.bytes| - done) - 1
  }

  lemma CopiedProgress(ram: Ram, c: Channel, j: Job, done: nat, ram1: Ram)
    requires Running(c, j, done) && done + Amount(c) <= |j.bytes|
    requires JobOk(ram1, j) && Holds(ram1, j, done + Amount(c)) && SameOutside(ram, ram1, j.to, |j.bytes|)
    ensures Moves(ram, c, j, done, AfterIncrement(ram, c, Done(ram1)))
  {
    AfterCopyRuns(c, j, done);
    StepsDown(c, j, done);
  }

  lemma AdvanceDone(ram: Ram, c: Channel, size: Addr, ram1: Ram)
    requires Small(ram) && IsActive(c.status) && size == Amount(c)
    requires Copy(ram, c.nextSource, c.nextDestination, size) == Done(ram1)
    ensures Advance(ram, c) == AfterIncrement(ram, c, Done(ram1))
  {
  }

  lemma RunningAmount(c: Channel, j: Job, done: nat) returns (size: Addr)
    requires Running(c, j, done)
    ensures size == Amount(c) && 0 < size && done + size <= |j.bytes| && IsActive(c.status)
    ensures c.nextSource == j.from + done && c.nextDestination == j.to + done
  {
    ActiveSize(|j.bytes| - done);
    size := Amount(c);
  }

  lemma ProgressCopies(ram: Ram, c: Channel, j: Job, done: nat, size: Addr) returns (ram1: Ram)
    requires Progress(ram, c, j, done) && 0 < size && done + size <= |j.bytes|
    ensures Copy(ram, c.nextSource, c.nextDestination, size) == Done(ram1)
    ensures JobOk(ram1, j) && Holds(ram1, j, done + size) && SameOutside(ram, ram1, j.to, |j.bytes|)
  {
    ram1 := CopyNext(ram, c.nextSource, c.nextDestination, j, done, size);
  }

  lemma AdvanceCopies(ram: Ram, c: Channel, j: Job, done: nat) returns (size: Addr, ram1: Ram)
    requires Progress(ram, c, j, done)
    ensures size == Amount(c) && Copy(ram, c.nextSource, c.nextDestination, size) == Done(ram1)
    ensures done + size <= |j.bytes| && JobOk(ram1, j) && Holds(ram1, j, done + size)
    ensures SameOutside(ram, ram1, j.to, |j.bytes|)
  {
    size := RunningAmount(c, j, done);
    ram1 := ProgressCopies(ram, c, j, done, size);
  }

  lemma AdvanceProgress(ram: Ram, c: Channel, j: Job, done: nat) returns (r: Advanced)
    requires Progress(ram, c, j, done)
    ensures r == Advance(ram, c)
    ensures Moves(ram, c, j, done, r)
  {
    var size, ram1 := AdvanceCopies(ram, c, j, done);
    size := RunningAmount(c, j, done);
    AdvanceDone(ram, c, size, ram1);
    CopiedProgress(ram, c, j, done, ram1);
    r := AfterIncrement(ram, c, Done(ram1));
  }
}
