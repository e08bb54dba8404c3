/** Which transfers end, and what they copy, on whatever memory the channels move bytes in: a
    single RAM device, or the memory map of the console. */
module DmaTransfers {
  import opened MachineWords
  import opened DmaMemory
  import opened DmaChannels
  import opened Dma
  import opened DmaEnds
  import MemoryController

  /** An accepted command is over after n increments exactly if both its regions can be
      accessed and n is at least the number of steps. */
  lemma CommandEnds(loads: Access, stores: Access, l: Ranges, s: Ranges, c: Channel, val: Addr, n: nat)
    requires Splits(loads, l) && Splits(stores, s) && (c.source, SizeOf(val)) in l && (c.destination, SizeOf(val)) in s
    requires !IsActive(c.status) && IsActive(val) && SizeOf(val) != 0
    ensures CommandStore(c, val).taken
    ensures !IsActive(After(loads, stores, CommandStore(c, val).channel, n).status) <==>
      loads(c.source, SizeOf(val)) && stores(c.destination, SizeOf(val)) && n >= Steps(c.destination, SizeOf(val))
  {
    CommandGoes(c, val);
    GoingEnds(loads, stores, l, s, CommandStore(c, val).channel, SizeOf(val), n);
  }

  // ---- runs without end -------------------------------------------------------

  /** The transfer is over at some increment if `inside`, then from this one on, and otherwise
      never. */
  ghost predicate EndsAt(run: nat -> Channel, inside: bool, steps: nat) {
    && ((exists n: nat :: !IsActive(run(n).status)) <==> inside)
    && (forall n: nat :: inside ==> (!IsActive(run(n).status) <==> n >= steps))
  }

  /** A transfer ends in some run, and then in every run and at the same increment, exactly if
      its source can be loaded and its destination stored to. */
  lemma TransferEnds(loads: Access, stores: Access, l: Ranges, s: Ranges, run: nat -> Channel, c: Channel, val: Addr)
    requires Splits(loads, l) && Splits(stores, s) && (c.source, SizeOf(val)) in l && (c.destination, SizeOf(val)) in s
    requires Endless(loads, stores, run) && run(0) == CommandStore(c, val).channel
    requires !IsActive(c.status) && IsActive(val) && SizeOf(val) != 0
    ensures EndsAt(run, loads(c.source, SizeOf(val)) && stores(c.destination, SizeOf(val)), Steps(c.destination, SizeOf(val)))
  {
    var inside, steps := loads(c.source, SizeOf(val)) && stores(c.destination, SizeOf(val)), Steps(c.destination, SizeOf(val));
    forall n: nat ensures !IsActive(run(n).status) <==> inside && n >= steps {
      RunAfter(loads, stores, run, n);
      CommandEnds(loads, stores, l, s, c, val, n);
    }
    assert inside ==> !IsActive(run(steps).status);
  }

  // ---- one RAM device ---------------------------------------------------------

  function InRam(ram: Ram): Access { (a: Addr, n: Addr) => InRange(ram, a, n) }

  ghost const EVERYWHERE: Ranges := iset r: (Addr, nat) | true

  /** The range check in 32-bit arithmetic, by address. */
  lemma RamRange(ram: Ram, a: Addr, n: Addr)
    requires Small(ram) && ram.base + |ram.data| <= WORD && n < SIZE_LIMIT
    ensures InRange(ram, a, n) <==> ram.base <= a < ram.base + |ram.data| && a + n <= ram.base + |ram.data|
  {
  }

  lemma RamSplits(ram: Ram)
    requires Small(ram)
    ensures Splits(InRam(ram), EVERYWHERE)
  {
  }

  lemma AdvanceIsNext(ram: Ram, c: Channel)
    requires Small(ram)
    ensures Advance(ram, c).channel == Next(InRam(ram), InRam(ram), c)
  {
  }

  lemma NextShape(ram: Ram, ram1: Ram, c: Channel)
    requires SameShape(ram, ram1)
    ensures Next(InRam(ram1), InRam(ram1), c) == Next(InRam(ram), InRam(ram), c)
  {
  }

  /** Both channels of the chipset over RAM.  Between increments memory, pending interrupts and
      the other channel may change in any way. */
  ghost predicate EndlessEngine(run: nat -> Engine, i: nat)
    requires i < CHANNEL_COUNT
  {
    forall k: nat :: IsEngine(run(k)) && Follows(run(k), run(k + 1), i)
  }

  predicate Follows(e: Engine, e1: Engine, i: nat)
    requires IsEngine(e) && i < CHANNEL_COUNT
  {
    |e1.channels| == CHANNEL_COUNT && SameShape(e.ram, e1.ram) && SameTransfer(IncrementBoth(e).channels[i], e1.channels[i])
  }

  lemma BothNext(e: Engine, i: nat)
    requires IsEngine(e) && i < CHANNEL_COUNT
    ensures IncrementBoth(e).channels[i] == Next(InRam(e.ram), InRam(e.ram), e.channels[i])
  {
    AdvanceSize(e.ram, e.channels[0]);
    var ram1 := Advance(e.ram, e.channels[0]).ram;
    AdvanceIsNext(e.ram, e.channels[0]);
    AdvanceIsNext(ram1, e.channels[1]);
    NextShape(e.ram, ram1, e.channels[1]);
  }

  lemma {:induction false} RunShape(run: nat -> Engine, i: nat, n: nat)
    requires i < CHANNEL_COUNT && EndlessEngine(run, i)
    ensures SameShape(run(0).ram, run(n).ram)
  {
    if n > 0 {
      RunShape(run, i, n - 1);
      assert Follows(run(n - 1), run(n - 1 + 1), i);
    }
  }

  lemma EngineEndless(run: nat -> Engine, i: nat) returns (channels: nat -> Channel)
    requires i < CHANNEL_COUNT && EndlessEngine(run, i)
    ensures Endless(InRam(run(0).ram), InRam(run(0).ram), channels) && forall k: nat :: channels(k) == run(k).channels[i]
  {
    channels := (k: nat) => if IsEngine(run(k)) then run(k).channels[i] else run(0).channels[i];
    var ok := InRam(run(0).ram);
    forall k: nat ensures SameTransfer(Next(ok, ok, channels(k)), channels(k + 1)) {
      RunShape(run, i, k);
      assert Follows(run(k), run(k + 1), i);
      BothNext(run(k), i);
      NextShape(run(0).ram, run(k).ram, run(k).channels[i]);
    }
  }

  /** On the chipset over RAM a transfer ends exactly if source and destination lie in memory. */
  lemma RamTransferEnds(run: nat -> Engine, i: nat, c: Channel, val: Addr) returns (channels: nat -> Channel)
    requires i < CHANNEL_COUNT && EndlessEngine(run, i)
    requires !IsActive(c.status) && IsActive(val) && SizeOf(val) != 0 && run(0).channels[i] == CommandStore(c, val).channel
    ensures forall k: nat :: channels(k) == run(k).channels[i]
    ensures EndsAt(channels, InRange(run(0).ram, c.source, SizeOf(val)) && InRange(run(0).ram, c.destination, SizeOf(val)),
                   Steps(c.destination, SizeOf(val)))
  {
    channels := EngineEndless(run, i);
    var ok := InRam(run(0).ram);
    RamSplits(run(0).ram);
    TransferEnds(ok, ok, EVERYWHERE, EVERYWHERE, channels, c, val);
  }

  /** Eight bytes, the last four of them past the end of the main memory: accepted, and never
      over. */
  lemma PastTheEnd(ram: Ram, c: Channel, n: nat)
    requires ram.base == 0x7000_0000 && |ram.data| == 0x100_0000 && !IsActive(c.status)
    requires c.source == 0x7000_0000 && c.destination == 0x70FF_FFFC
    ensures var d := CommandStore(c, ACTIVE + 8);
      d.taken && IsActive(After(InRam(ram), InRam(ram), d.channel, n).status)
  {
    ActiveSize(8);
    RamSplits(ram);
    CommandEnds(InRam(ram), InRam(ram), EVERYWHERE, EVERYWHERE, c, ACTIVE + 8, n);
  }

  // ---- the memory map of the console ------------------------------------------

  const SLOT := 0x1000_0000

  /** The 256 MB from a device's base on. */
  predicate InSlot(d: MemoryController.Device, a: Addr) { d.base <= a < d.base + SLOT }

  /** The range check of the devices. */
  predicate Within(d: MemoryController.Device, a: Addr, n: Addr)
    requires d.Leaf?
  {
    Minus(a, d.base) < d.size && Plus(Minus(a, d.base), n) <= d.size
  }

  /** How a device answers.  RAM, and flash that is loaded from, check the range.  A locked flash
      drops a store without a check.  The register block does not check all of the range for
      every width. */
  datatype Kind = Checking | Dropping | Registers

  /** The device the memory controller leads to. */
  ghost function Reached(ds: seq<MemoryController.Device>, a: Addr, n: Addr): Option<MemoryController.Device>
    requires MemoryController.IsConsole(ds)
  {
    MemoryController.ConsoleDigits(ds);
    match MemoryController.MemoryMap(ds)
    case Some(m) => MemoryController.Access(m, a, n)
    case None => None
  }

  ghost predicate Returns(ds: seq<MemoryController.Device>, a: Addr, n: Addr)
    requires MemoryController.IsConsole(ds)
  {
    var r := Reached(ds, a, n);
    r.Some? && r.value.Leaf? && Within(r.value, a, n)
  }

  /** What is known of accesses in the slot of device i. */
  ghost predicate Behaves(ok: Access, ds: seq<MemoryController.Device>, i: nat, kind: Kind)
    requires MemoryController.IsConsole(ds) && i < |ds|
  {
    forall a, n :: InSlot(ds[i], a) ==> BehavesAt(ok, ds, kind, a, n)
  }

  ghost predicate BehavesAt(ok: Access, ds: seq<MemoryController.Device>, kind: Kind, a: Addr, n: Addr)
    requires MemoryController.IsConsole(ds)
  {
    match kind
    case Checking => ok(a, n) <==> Returns(ds, a, n)
    case Dropping => ok(a, n) <==> Reached(ds, a, n).Some?
    case Registers => Returns(ds, a, n) ==> ok(a, n)
  }

  /** The same, without the controller. */
  ghost predicate Serves(ok: Access, d: MemoryController.Device, kind: Kind)
    requires d.Leaf?
  {
    forall a, n :: InSlot(d, a) ==> ServesAt(ok, d, kind, a, n)
  }

  predicate ServesAt(ok: Access, d: MemoryController.Device, kind: Kind, a: Addr, n: Addr)
    requires d.Leaf?
  {
    match kind
    case Checking => ok(a, n) <==> Within(d, a, n)
    case Dropping => ok(a, n)
    case Registers => Within(d, a, n) ==> ok(a, n)
  }

  lemma ReachedDevice(ds: seq<MemoryController.Device>, i: nat, a: Addr, n: Addr)
    requires MemoryController.IsConsole(ds) && i < |ds| && InSlot(ds[i], a)
    ensures Reached(ds, a, n) == Some(ds[i]) && ds[i].Leaf? && (Returns(ds, a, n) <==> Within(ds[i], a, n))
  {
    MemoryController.ConsoleMap(ds, i, a, n);
    MemoryController.ConsoleBases(ds);
  }

  lemma ConsoleServes(ok: Access, ds: seq<MemoryController.Device>, i: nat, kind: Kind)
    requires MemoryController.IsConsole(ds) && i < |ds| && Behaves(ok, ds, i, kind)
    ensures ds[i].Leaf? && ds[i].base + SLOT <= WORD && Serves(ok, ds[i], kind)
  {
    MemoryController.ConsoleBases(ds);
    forall a: Addr, n: Addr | InSlot(ds[i], a) ensures ServesAt(ok, ds[i], kind, a, n) {
      ReachedDevice(ds, i, a, n);
      assert BehavesAt(ok, ds, kind, a, n);
    }
  }

  /** The ranges a statement can be made about: for a locked flash those that end in its slot,
      for the registers those that lie in the block. */
  predicate Known(d: MemoryController.Device, kind: Kind, a: Addr, n: nat)
    requires d.Leaf?
  {
    InSlot(d, a) && match kind
      case Checking => true
      case Dropping => a + n <= d.base + SLOT
      case Registers => n < WORD && Within(d, a, n)
  }

  ghost function KnownRanges(d: MemoryController.Device, kind: Kind): Ranges
    requires d.Leaf?
  {
    iset r: (Addr, nat) | Known(d, kind, r.0, r.1)
  }

  /** Whether a known range is accessible. */
  predicate Accessible(d: MemoryController.Device, kind: Kind, a: Addr, n: Addr)
    requires d.Leaf?
  {
    kind.Dropping? || Within(d, a, n)
  }

  lemma WithinSplits(d: MemoryController.Device, a: Addr, n: Addr, m: Addr)
    requires d.Leaf? && d.size < SLOT && d.base + SLOT <= WORD && InSlot(d, a) && 0 < n && 0 < m && n + m < SIZE_LIMIT
    ensures Within(d, a, n) ==> InSlot(d, Plus(a, n))
    ensures Within(d, a, n + m) <==> Within(d, a, n) && Within(d, Plus(a, n), m)
  {
  }

  lemma ServesSplits(ok: Access, d: MemoryController.Device, kind: Kind)
    requires d.Leaf? && d.size < SLOT && d.base + SLOT <= WORD && Serves(ok, d, kind)
    ensures Splits(ok, KnownRanges(d, kind))
  {
    var ranges := KnownRanges(d, kind);
    forall a: Addr, n: Addr, m: Addr | 0 < n && 0 < m && n + m < SIZE_LIMIT && (a, n + m) in ranges
      ensures SplitsAt(ok, ranges, a, n, m)
    {
      WithinSplits(d, a, n, m);
      ServesSplitsAt(ok, d, kind, a, n, m);
    }
  }

  lemma ServesSplitsAt(ok: Access, d: MemoryController.Device, kind: Kind, a: Addr, n: Addr, m: Addr)
    requires d.Leaf? && d.base + SLOT <= WORD && Serves(ok, d, kind) && 0 < n && 0 < m && n + m < SIZE_LIMIT
    requires Known(d, kind, a, n + m) && (Within(d, a, n) ==> InSlot(d, Plus(a, n)))
    requires Within(d, a, n + m) <==> Within(d, a, n) && Within(d, Plus(a, n), m)
    ensures SplitsAt(ok, KnownRanges(d, kind), a, n, m)
  {
    assert ServesAt(ok, d, kind, a, n) && ServesAt(ok, d, kind, a, n + m);
    if InSlot(d, Plus(a, n)) { assert ServesAt(ok, d, kind, Plus(a, n), m); }
  }

  /** On the console a transfer from one device to another, the video RAM or a locked flash for
      one, ends exactly if each region is accessible in its device. */
  lemma ConsoleTransferEnds(loads: Access, stores: Access, ds: seq<MemoryController.Device>, i: nat, from: Kind, j: nat, into: Kind,
                            run: nat -> Channel, c: Channel, val: Addr)
    requires MemoryController.IsConsole(ds) && i < |ds| && j < |ds| && Behaves(loads, ds, i, from) && Behaves(stores, ds, j, into)
    requires ds[i].Leaf? && ds[j].Leaf? && ds[i].size < SLOT && ds[j].size < SLOT
    requires Known(ds[i], from, c.source, SizeOf(val)) && Known(ds[j], into, c.destination, SizeOf(val))
    requires Endless(loads, stores, run) && run(0) == CommandStore(c, val).channel
    requires !IsActive(c.status) && IsActive(val) && SizeOf(val) != 0
    ensures EndsAt(run, Accessible(ds[i], from, c.source, SizeOf(val)) && Accessible(ds[j], into, c.destination, SizeOf(val)),
                   Steps(c.destination, SizeOf(val)))
  {
    ConsoleServes(loads, ds, i, from);
    ConsoleServes(stores, ds, j, into);
    ServesSplits(loads, ds[i], from);
    ServesSplits(stores, ds[j], into);
    ServesKnown(loads, ds[i], from, c.source, SizeOf(val));
    ServesKnown(stores, ds[j], into, c.destination, SizeOf(val));
    TransferEnds(loads, stores, KnownRanges(ds[i], from), KnownRanges(ds[j], into), run, c, val);
  }

  lemma ServesKnown(ok: Access, d: MemoryController.Device, kind: Kind, a: Addr, n: Addr)
    requires d.Leaf? && Serves(ok, d, kind) && Known(d, kind, a, n)
    ensures ok(a, n) <==> Accessible(d, kind, a, n)
  {
    assert ServesAt(ok, d, kind, a, n);
  }

  // ---- what a transfer copies -------------------------------------------------

  /** An accepted transfer whose regions are accessible and apart has copied all bytes when its
      last increment is over, the channel is inactive, and that increment raises the interrupt. */
  lemma TransferCopies(loads: Access, stores: Access, l: Ranges, s: Ranges, run: nat -> State, c: Channel, val: Addr)
    requires Splits(loads, l) && Splits(stores, s) && (c.source, SizeOf(val)) in l && (c.destination, SizeOf(val)) in s
    requires loads(c.source, SizeOf(val)) && stores(c.destination, SizeOf(val)) && RegionsApart(c.source, c.destination, SizeOf(val))
    requires CopyRun(loads, stores, run, c.source, c.destination, SizeOf(val))
    requires !IsActive(c.status) && IsActive(val) && SizeOf(val) != 0 && run(0).channel == CommandStore(c, val).channel
    ensures var st := run(Steps(c.destination, SizeOf(val)));
      !IsActive(st.channel.status) && Raises(loads, stores, run(Steps(c.destination, SizeOf(val)) - 1).channel)
      && HasCopied(run(0).bytes, st.bytes, c.source, c.destination, SizeOf(val), SizeOf(val))
  {
    var src, dst, size := c.source, c.destination, SizeOf(val);
    CommandGoes(c, val);
    assert Plus(src, 0) == src && Plus(dst, 0) == dst;
    var k := Steps(dst, size) - 1;
    var done := MidwayAt(loads, stores, l, s, run, src, dst, size, k);
    assert CopyStep(loads, stores, run(k), run(k + 1), src, dst, size);
    done := MidwayStep(loads, stores, l, s, run(0).bytes, run(k), run(k + 1), src, dst, size, done);
  }

  /** On the console: from RAM or flash to the main or the video RAM. */
  lemma ConsoleTransferCopies(loads: Access, stores: Access, ds: seq<MemoryController.Device>, i: nat, j: nat,
                              run: nat -> State, c: Channel, val: Addr)
    requires MemoryController.IsConsole(ds) && i < |ds| && j < |ds| && Behaves(loads, ds, i, Checking) && Behaves(stores, ds, j, Checking)
    requires ds[i].Leaf? && ds[j].Leaf? && ds[i].size < SLOT && ds[j].size < SLOT && InSlot(ds[i], c.source) && InSlot(ds[j], c.destination)
    requires Within(ds[i], c.source, SizeOf(val)) && Within(ds[j], c.destination, SizeOf(val))
    requires Apart(c.source, SizeOf(val), c.destination, SizeOf(val))
    requires CopyRun(loads, stores, run, c.source, c.destination, SizeOf(val))
    requires !IsActive(c.status) && IsActive(val) && SizeOf(val) != 0 && run(0).channel == CommandStore(c, val).channel
    ensures var n := SizeOf(val); var st := run(Steps(c.destination, n));
      !IsActive(st.channel.status) && Raises(loads, stores, run(Steps(c.destination, n) - 1).channel)
      && HasCopied(run(0).bytes, st.bytes, c.source, c.destination, n, n)
  {
    var n := SizeOf(val);
    ConsoleServes(loads, ds, i, Checking);
    ConsoleServes(stores, ds, j, Checking);
    ServesSplits(loads, ds[i], Checking);
    ServesSplits(stores, ds[j], Checking);
    ServesKnown(loads, ds[i], Checking, c.source, n);
    ServesKnown(stores, ds[j], Checking, c.destination, n);
    NoWrap(ds[i], c.source, n);
    NoWrap(ds[j], c.destination, n);
    TransferCopies(loads, stores, KnownRanges(ds[i], Checking), KnownRanges(ds[j], Checking), run, c, val);
  }

  lemma NoWrap(d: MemoryController.Device, a: Addr, n: Addr)
    requires d.Leaf? && d.size < SLOT && d.base + SLOT <= WORD && InSlot(d, a) && n < SIZE_LIMIT && Within(d, a, n)
    ensures a + n < WORD && forall b: Addr :: b < n ==> Plus(a, b) == a + b
  {
  }
}
