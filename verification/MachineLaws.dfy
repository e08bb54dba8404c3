/** What the machine does, said without the functions that say how: the bytes of the flash
    memories, the words read from them, and where a trap leaves the registers. */
module MachineLaws {
  import opened MachineWords
  import opened InstructionCache
  import opened CachedExecution

  // ---- bytes of a flash memory ------------------------------------------------

  /** A device that does not wrap around the address space. */
  predicate Placed(f: Flash) { f.base + |f.data| <= WORD }

  predicate Has(f: Flash, a: int) { f.base <= a < f.base + |f.data| }

  function ByteOf(f: Flash, a: int): Byte
    requires Has(f, a)
  {
    f.data[a - f.base]
  }

  predicate SameDevice(f: Flash, g: Flash) { f.base == g.base && |f.data| == |g.data| && f.writeEnabled == g.writeEnabled }

  lemma InRangeMeans(f: Flash, addr: Addr, size: nat)
    requires Placed(f)
    ensures InRange(f, addr, size) <==> Has(f, addr) && addr + size <= f.base + |f.data|
  {
  }

  lemma Pasted(data: seq<Byte>, i: nat, src: seq<Byte>, k: nat)
    requires i + |src| <= |data| && k < |data|
    ensures (data[..i] + src + data[i + |src|..])[k] == if i <= k < i + |src| then src[k - i] else data[k]
  {
  }

  /** An enabled store in range writes its bytes, and no other. */
  lemma StoreWrites(f: Flash, addr: Addr, src: seq<Byte>, a: int)
    requires Placed(f) && f.writeEnabled && Has(f, addr) && addr + |src| <= f.base + |f.data| && Has(f, a)
    ensures var r := StoreData(f, addr, src);
      && r.Stored? && SameDevice(f, r.f)
      && ByteOf(r.f, a) == if addr <= a < addr + |src| then src[a - addr] else ByteOf(f, a)
  {
    InRangeMeans(f, addr, |src|);
    Pasted(f.data, addr - f.base, src, a - f.base);
  }

  /** Any other store changes nothing; it throws if writing is enabled. */
  lemma StoreRefused(f: Flash, addr: Addr, src: seq<Byte>)
    requires Placed(f) && (!f.writeEnabled || !Has(f, addr) || addr + |src| > f.base + |f.data|)
    ensures var r := StoreData(f, addr, src); r.f == f && (r.OutOfRange? <==> f.writeEnabled)
  {
    InRangeMeans(f, addr, |src|);
  }

  lemma EraseZeroes(f: Flash, a: int)
    requires Has(f, a)
    ensures var g := EraseAll(f); SameDevice(f, g) && ByteOf(g, a) == if f.writeEnabled then 0 else ByteOf(f, a)
  {
  }

  // ---- programming ------------------------------------------------------------

  /** The 32-bit address at which a payload is stored. */
  function Start(h: Header): Addr { Wrap(h.paddr) }

  predicate Covers(h: Header, a: int) { Start(h) <= a < Start(h) + |h.payload| }

  /** Header k is the last to cover the address. */
  predicate LastCover(hs: seq<Header>, k: nat, a: int) {
    k < |hs| && Covers(hs[k], a) && forall l :: k < l < |hs| ==> !Covers(hs[l], a)
  }

  predicate FitsIn(f: Flash, h: Header) { Has(f, Start(h)) && Start(h) + |h.payload| <= f.base + |f.data| }

  lemma {:induction false} HeadersWrite(f: Flash, hs: seq<Header>, a: int)
    requires Placed(f) && f.writeEnabled && Has(f, a) && forall h :: h in hs ==> FitsIn(f, h)
    ensures var r := StoreHeaders(f, hs);
      r.Stored? && SameDevice(f, r.f) && WrittenAt(ByteOf(f, a), ByteOf(r.f, a), hs, a)
    decreases |hs|
  {
    if hs != [] {
      assert FitsIn(f, hs[0]);
      StoreWrites(f, Start(hs[0]), hs[0].payload, a);
      var g := StoreData(f, Start(hs[0]), hs[0].payload).f;
      forall h | h in hs[1..] ensures FitsIn(g, h) { assert FitsIn(f, h); }
      HeadersWrite(g, hs[1..], a);
      WrittenMore(ByteOf(f, a), ByteOf(g, a), ByteOf(StoreHeaders(g, hs[1..]).f, a), hs, a);
    }
  }

  /** The byte after the payloads have been stored: that of the last over it, or the old one. */
  ghost predicate WrittenAt(before: Byte, after: Byte, hs: seq<Header>, a: int) {
    && (forall k: nat :: LastCover(hs, k, a) ==> after == hs[k].payload[a - Start(hs[k])])
    && ((forall k :: 0 <= k < |hs| ==> !Covers(hs[k], a)) ==> after == before)
  }

  lemma WrittenMore(before: Byte, between: Byte, after: Byte, hs: seq<Header>, a: int)
    requires hs != [] && WrittenAt(between, after, hs[1..], a)
    requires between == if Covers(hs[0], a) then hs[0].payload[a - Start(hs[0])] else before
    ensures WrittenAt(before, after, hs, a)
  {
    LastOfRest(hs, a);
    forall k: nat | LastCover(hs, k, a) ensures after == hs[k].payload[a - Start(hs[k])] {
      if k > 0 {
        assert LastCover(hs[1..], k - 1, a) && hs[1..][k - 1] == hs[k];
      } else {
        assert after == between;
      }
    }
  }

  lemma LastOfRest(hs: seq<Header>, a: int)
    requires hs != []
    ensures forall k: nat :: 0 < k ==> (LastCover(hs, k, a) <==> LastCover(hs[1..], k - 1, a))
    ensures LastCover(hs, 0, a) <==> Covers(hs[0], a) && forall k :: 0 <= k < |hs[1..]| ==> !Covers(hs[1..][k], a)
    ensures (forall k :: 0 <= k < |hs| ==> !Covers(hs[k], a)) <==>
      !Covers(hs[0], a) && forall k :: 0 <= k < |hs[1..]| ==> !Covers(hs[1..][k], a)
  {
    assert hs == [hs[0]] + hs[1..];
  }

  /** The contents after programming: each byte is that of the last payload over it, and 0 where
      there is none. */
  ghost predicate Programmed(g: Flash, hs: seq<Header>) {
    forall a :: Has(g, a) ==> ProgrammedAt(g, hs, a)
  }

  ghost predicate ProgrammedAt(g: Flash, hs: seq<Header>, a: int)
    requires Has(g, a)
  {
    WrittenAt(0, ByteOf(g, a), hs, a)
  }

  /** Programming what fits leaves exactly the payloads, and the flash locked. */
  lemma ProgramWrites(f: Flash, hs: seq<Header>)
    requires Placed(f) && forall h :: h in hs ==> FitsIn(f, h)
    ensures var r := Program(f, hs);
      r.Stored? && r.f.base == f.base && |r.f.data| == |f.data| && !r.f.writeEnabled && Programmed(r.f, hs)
  {
    var g := EraseAll(f.(writeEnabled := true));
    var r := Program(f, hs);
    HeadersStore(g, hs);
    forall a | Has(r.f, a) ensures ProgrammedAt(r.f, hs, a) { ProgramWritesAt(f, hs, a); }
  }

  lemma ProgramWritesAt(f: Flash, hs: seq<Header>, a: int)
    requires Placed(f) && Has(f, a) && forall h :: h in hs ==> FitsIn(f, h)
    ensures var r := Program(f, hs); Has(r.f, a) && ProgrammedAt(r.f, hs, a)
  {
    var g := EraseAll(f.(writeEnabled := true));
    EraseZeroes(f.(writeEnabled := true), a);
    forall h | h in hs ensures FitsIn(g, h) { assert FitsIn(f, h); }
    HeadersWrite(g, hs, a);
  }

  lemma HeadersStore(f: Flash, hs: seq<Header>)
    requires Placed(f) && f.writeEnabled && forall h :: h in hs ==> FitsIn(f, h)
    ensures StoreHeaders(f, hs).Stored? && SameDevice(f, StoreHeaders(f, hs).f)
  {
    forall h | h in hs ensures Fits(f, h) { InRangeMeans(f, Start(h), |h.payload|); }
    StoreHeadersFits(f, hs);
  }

  /** The events, seen from outside: what is in the flash, and who is reset. */
  lemma ProgramEvents<I, R>(w: World<I, R>, m: Machine<R>, hs: seq<Header>, entry: Addr, shown: seq<Addr>)
    requires WellFormed(m)
    ensures !AllAccepted(FIRMWARE_BASE, hs) ==> ApplyPlain(w, m, ProgramFirmware(hs, shown)) == m
    ensures !AllAccepted(CARTRIDGE_BASE, hs) ==> ApplyPlain(w, m, InsertCartridge(hs, entry, shown)) == m
    ensures AllAccepted(FIRMWARE_BASE, hs) && (forall h :: h in hs ==> FitsIn(m.firmware, h)) ==>
      var m1 := ApplyPlain(w, m, ProgramFirmware(hs, shown));
      WellFormed(m1) && Programmed(m1.firmware, hs) && m1.cartridge == m.cartridge && m1.cpu == w.reset(m.cpu)
    ensures AllAccepted(CARTRIDGE_BASE, hs) && (forall h :: h in hs ==> FitsIn(m.cartridge, h)) ==>
      var m1 := ApplyPlain(w, m, InsertCartridge(hs, entry, shown));
      WellFormed(m1) && Programmed(m1.cartridge, hs) && m1.firmware == m.firmware && m1.cpu == w.inserted(m.cpu, entry)
    ensures var m1 := ApplyPlain(w, m, RemoveCartridge);
      WellFormed(m1) && Programmed(m1.cartridge, []) && m1.firmware == m.firmware && m1.cpu == w.removed(m.cpu)
  {
    if forall h :: h in hs ==> FitsIn(m.firmware, h) { ProgramWrites(m.firmware, hs); }
    if forall h :: h in hs ==> FitsIn(m.cartridge, h) { ProgramWrites(m.cartridge, hs); }
    ProgramWrites(m.cartridge, []);
  }

  // ---- words ------------------------------------------------------------------

  /** The bytes of a word, the lowest first. */
  predicate IsWord(v: int, b0: Byte, b1: Byte, b2: Byte, b3: Byte) {
    0 <= v < WORD && v % 0x100 == b0 && v / 0x100 % 0x100 == b1 && v / 0x1_0000 % 0x100 == b2 && v / 0x100_0000 == b3
  }

  lemma FlashWord(f: Flash, a: Addr)
    requires Placed(f)
    ensures LoadFlash(f, a).Some? <==> Has(f, a) && Has(f, a + 3)
    ensures LoadFlash(f, a).Some? ==>
      IsWord(LoadFlash(f, a).value, ByteOf(f, a), ByteOf(f, a + 1), ByteOf(f, a + 2), ByteOf(f, a + 3))
  {
    InRangeMeans(f, a, 4);
    if LoadFlash(f, a).Some? {
      WordBytes(ByteOf(f, a), ByteOf(f, a + 1), ByteOf(f, a + 2), ByteOf(f, a + 3));
    }
  }

  lemma WordBytes(b0: Byte, b1: Byte, b2: Byte, b3: Byte)
    ensures IsWord((b0 as int) + 0x100 * (b1 as int) + 0x1_0000 * (b2 as int) + 0x100_0000 * (b3 as int), b0, b1, b2, b3)
  {
    var v: int := (b0 as int) + 0x100 * (b1 as int) + 0x1_0000 * (b2 as int) + 0x100_0000 * (b3 as int);
    assert v / 0x100 == (b1 as int) + 0x100 * (b2 as int) + 0x1_0000 * (b3 as int);
    assert v / 0x1_0000 == (b2 as int) + 0x100 * (b3 as int);
  }

  /** The flash an address belongs to, if any. */
  function FlashFor<R>(m: Machine<R>, a: Addr): Option<Flash>
    requires Mapped(m)
  {
    if Has(m.firmware, a) then Some(m.firmware) else if Has(m.cartridge, a) then Some(m.cartridge) else None
  }

  /** A word comes from the flash its address belongs to, or else from the rest of memory. */
  lemma WordComesFrom<I, R>(w: World<I, R>, m: Machine<R>, a: Addr)
    requires Mapped(m)
    ensures var f := FlashFor(m, a);
      match LoadWord(w, m, a)
      case None => if f.Some? then !Has(f.value, a + 3) else w.load(m, a) == None
      case Some(v) =>
        if f.None? then w.load(m, a) == Some(v)
        else
          Has(f.value, a + 3)
          && IsWord(v, ByteOf(f.value, a), ByteOf(f.value, a + 1), ByteOf(f.value, a + 2), ByteOf(f.value, a + 3))
  {
    FlashWord(m.firmware, a);
    FlashWord(m.cartridge, a);
  }

  /** A byte the processor stores to flash arrives if that flash can be written. */
  lemma ByteStored<R>(m: Machine<R>, a: Addr, v: Byte, b: Addr)
    requires Mapped(m) && FlashFor(m, b).Some?
    ensures var m1 := StoreByte(m, a, v);
      && Mapped(m1) && m1.cpu == m.cpu && FlashFor(m1, b).value.writeEnabled == FlashFor(m, b).value.writeEnabled
      && ByteOf(FlashFor(m1, b).value, b) ==
         if a == b && FlashFor(m, a).value.writeEnabled then v else ByteOf(FlashFor(m, b).value, b)
  {
    var f := if Has(m.firmware, a) then m.firmware else m.cartridge;
    if Has(f, a) {
      if f.writeEnabled {
        StoreWrites(f, a, [v], a);
        if Has(f, b) { StoreWrites(f, a, [v], b); }
      } else {
        StoreRefused(f, a, [v]);
      }
    }
  }

  /** Store k is the last to the address. */
  predicate LastStore(stores: seq<(Addr, Byte)>, k: nat, b: Addr) {
    k < |stores| && stores[k].0 == b && forall l :: k < l < |stores| ==> stores[l].0 != b
  }

  /** The byte at a flash address after some stores: the last one to it, if that flash can be
      written, or the old one. */
  ghost predicate StoredAt<R>(m: Machine<R>, m1: Machine<R>, stores: seq<(Addr, Byte)>, b: Addr)
    requires Mapped(m) && Mapped(m1) && FlashFor(m, b).Some?
  {
    var f, g := FlashFor(m, b).value, FlashFor(m1, b).value;
    && g.writeEnabled == f.writeEnabled
    && (f.writeEnabled ==> forall k: nat :: LastStore(stores, k, b) ==> ByteOf(g, b) == stores[k].1)
    && (!f.writeEnabled || (forall k :: 0 <= k < |stores| ==> stores[k].0 != b) ==> ByteOf(g, b) == ByteOf(f, b))
  }

  lemma {:induction false} StoresArrive<R>(m: Machine<R>, stores: seq<(Addr, Byte)>, b: Addr)
    requires Mapped(m) && FlashFor(m, b).Some?
    ensures var m1 := StoreAll(m, stores); Mapped(m1) && m1.cpu == m.cpu && StoredAt(m, m1, stores, b)
    decreases |stores|
  {
    if stores != [] {
      var m1 := StoreByte(m, stores[0].0, stores[0].1);
      ByteStored(m, stores[0].0, stores[0].1, b);
      StoresArrive(m1, stores[1..], b);
      LastStoreOfRest(stores, b);
    }
  }

  lemma LastStoreOfRest(stores: seq<(Addr, Byte)>, b: Addr)
    requires stores != []
    ensures forall k: nat :: 0 < k ==> (LastStore(stores, k, b) <==> LastStore(stores[1..], k - 1, b))
    ensures (forall k :: 0 <= k < |stores| ==> stores[k].0 != b) <==>
      stores[0].0 != b && forall k :: 0 <= k < |stores[1..]| ==> stores[1..][k].0 != b
    ensures LastStore(stores, 0, b) <==> stores[0].0 == b && forall k :: 0 <= k < |stores[1..]| ==> stores[1..][k].0 != b
  {
    assert stores == [stores[0]] + stores[1..];
  }

  // ---- traps ------------------------------------------------------------------

  /** What a trap changes and what it leaves. */
  ghost predicate Trapped<R>(c: Cpu<R>, d: Cpu<R>, cause: nat, interrupt: bool) {
    && d == c.(pc := d.pc, mcause := d.mcause, mepc := d.mepc, mstatus := d.mstatus)
    && d.mepc == c.pc
    && d.mcause == (if interrupt then 0x8000_0000 + cause else cause)
    && (c.mtvec % 2 == 0 ==> d.pc == c.mtvec)
    && (c.mtvec % 2 == 1 ==> d.pc == (c.mtvec - 1 + 4 * cause) % WORD)
    && StatusStacked(c.mstatus, d.mstatus)
  }

  /** MIE (bit 3) is clear, MPIE (bit 7) is the old MIE, MPP (bits 11 and 12) is kept, and nothing
      else is set. */
  predicate StatusStacked(before: bv32, after: bv32) {
    && after & 0x8 == 0
    && (after & 0x80 != 0 <==> before & 0x8 != 0)
    && after & 0x1800 == before & 0x1800
    && after & 0xFFFF_E77F == 0
  }

  lemma StatusOf(before: bv32)
    ensures StatusStacked(before, TrapStatus(before))
  {
  }

  lemma TrapTakes<R>(c: Cpu<R>, cause: Addr, interrupt: bool)
    requires cause < 16
    ensures Trapped(c, InvokeTrap(c, cause, interrupt), cause, interrupt)
  {
    StatusOf(c.mstatus);
  }

  /** Sources that are pending and enabled. */
  predicate ExternalDue(mip: bv32, mie: bv32) { mip & 0x800 != 0 && mie & 0x800 != 0 }
  predicate TimerDue(mip: bv32, mie: bv32) { mip & 0x80 != 0 && mie & 0x80 != 0 }
  predicate SoftwareDue(mip: bv32, mie: bv32) { mip & 0x8 != 0 && mie & 0x8 != 0 }

  lemma ExternalBit(mip: bv32, mie: bv32)
    ensures (mip & mie) & 0x800 != 0 <==> ExternalDue(mip, mie)
  {
  }

  lemma TimerBit(mip: bv32, mie: bv32)
    ensures (mip & mie) & 0x80 != 0 <==> TimerDue(mip, mie)
  {
  }

  lemma SoftwareBit(mip: bv32, mie: bv32)
    ensures (mip & mie) & 0x8 != 0 <==> SoftwareDue(mip, mie)
  {
  }

  lemma CauseIsDue(mip: bv32, mie: bv32)
    ensures InterruptCause(mip & mie) ==
      if ExternalDue(mip, mie) then 11 else if TimerDue(mip, mie) then 7 else if SoftwareDue(mip, mie) then 3 else 0
  {
    ExternalBit(mip, mie);
    TimerBit(mip, mie);
    SoftwareBit(mip, mie);
  }

  /** With interrupts off, or none pending and enabled, nothing happens. */
  lemma NoInterrupt<R>(c: Cpu<R>)
    requires c.mstatus & 0x8 == 0 || c.mip & c.mie == 0
    ensures CheckInterrupts(c) == c
  {
  }

  /** Otherwise one is taken: external before timer before software, and cause 0 for what is none
      of these. */
  lemma InterruptTaken<R>(c: Cpu<R>)
    requires c.mstatus & 0x8 != 0 && c.mip & c.mie != 0
    ensures var external, timer, software := ExternalDue(c.mip, c.mie), TimerDue(c.mip, c.mie), SoftwareDue(c.mip, c.mie);
      Trapped(c, CheckInterrupts(c), if external then 11 else if timer then 7 else if software then 3 else 0, true)
  {
    var cause := InterruptCause(c.mip & c.mie);
    IsTaken(c, cause);
    CauseIsDue(c.mip, c.mie);
    TrapTakes(c, cause, true);
  }

  lemma IsTaken<R>(c: Cpu<R>, cause: Addr)
    requires c.mstatus & 0x8 != 0 && c.mip & c.mie != 0 && cause == InterruptCause(c.mip & c.mie)
    ensures CheckInterrupts(c) == InvokeTrap(c, cause, true)
  {
    IsInterrupted(c);
    TakenIfInterrupted(c, cause);
  }

  lemma IsInterrupted<R>(c: Cpu<R>)
    requires c.mstatus & 0x8 != 0 && c.mip & c.mie != 0
    ensures Interrupted(c)
  {
    NotNone(c.mip, c.mie);
  }

  lemma TakenIfInterrupted<R>(c: Cpu<R>, cause: Addr)
    requires Interrupted(c) && cause == InterruptCause(c.mip & c.mie)
    ensures CheckInterrupts(c) == InvokeTrap(c, cause, true)
  {
  }

  lemma NotNone(mip: bv32, mie: bv32)
    ensures mip & mie != 0 ==> mip != 0
  {
  }

  // ---- one instruction --------------------------------------------------------

  /** A fetch that fails: misaligned, unreadable or illegal. */
  lemma FetchTraps<I, R>(w: World<I, R>, m: Machine<R>)
    ensures var pc, word, m1 := m.cpu.pc, LoadWord(w, m, m.cpu.pc), StepPlain(w, m);
      && (pc % 4 != 0 ==> Trapped(m.cpu, m1.cpu, 0, false))
      && (pc % 4 == 0 && word == None ==> Trapped(m.cpu, m1.cpu, 1, false))
      && (pc % 4 == 0 && word.Some? && w.decode(pc, word.value) == None ==> Trapped(m.cpu, m1.cpu, 2, false))
      && (pc % 4 != 0 || word == None || w.decode(pc, word.value) == None ==> m1 == m.(cpu := m1.cpu))
  {
    TrapTakes(m.cpu, 0, false);
    TrapTakes(m.cpu, 1, false);
    TrapTakes(m.cpu, 2, false);
  }

  /** The instruction found at the program counter. */
  ghost predicate Fetches<I, R>(w: World<I, R>, m: Machine<R>, inst: I) {
    m.cpu.pc % 4 == 0 && LoadWord(w, m, m.cpu.pc).Some? && w.decode(m.cpu.pc, LoadWord(w, m, m.cpu.pc).value) == Some(inst)
  }

  /** An instruction that is executed is counted, and then interrupts are looked at; one that is
      refused changes what it has changed and is not counted; one that faults traps, as a store or
      as a load. */
  lemma InstructionEnds<I, R>(w: World<I, R>, m: Machine<R>, inst: I)
    requires WellFormed(m) && Fetches(w, m, inst)
    ensures var e, m1 := w.execute(inst, m), StepPlain(w, m);
      && m1 == m.(cpu := m1.cpu)
      && (e.outcome.Executed? ==> m1.cpu == CheckInterrupts(e.cpu.(cycle := e.cpu.cycle + 1, retired := e.cpu.retired + 1)))
      && (e.outcome.Refused? ==> m1.cpu == e.cpu)
      && (e.outcome.Faulted? ==> Trapped(e.cpu, m1.cpu, if w.storeBit(inst) then 7 else 5, false))
  {
    var e := w.execute(inst, m);
    LockedFlashKept(m.(cpu := e.cpu), e.stores);
    TrapTakes(e.cpu, if w.storeBit(inst) then 7 else 5, false);
  }

  /** The stores of an instruction, and those of the devices after it. */
  lemma InstructionStores<I, R>(w: World<I, R>, m: Machine<R>, inst: I, b: Addr)
    requires Mapped(m) && Fetches(w, m, inst) && FlashFor(m, b).Some?
    ensures var m1 := StepPlain(w, m); Mapped(m1) && StoredAt(m, m1, w.execute(inst, m).stores, b)
  {
    var e := w.execute(inst, m);
    StoresArrive(m.(cpu := e.cpu), e.stores, b);
  }

  lemma DeviceStores<I, R>(w: World<I, R>, m: Machine<R>, b: Addr)
    requires Mapped(m) && FlashFor(m, b).Some?
    ensures var e, m1 := w.devices(m), DeviceStep(w, m); Mapped(m1) && m1.cpu == e.cpu && StoredAt(m, m1, e.stores, b)
  {
    StoresArrive(m.(cpu := w.devices(m).cpu), w.devices(m).stores, b);
  }

  /** After the instruction the devices have their turn, and change registers alone. */
  lemma StepEnds<I, R>(w: World<I, R>, m: Machine<R>)
    requires WellFormed(m)
    ensures var m1 := StepPlain(w, m); ApplyPlain(w, m, Step) == m1.(cpu := w.devices(m1).cpu)
    ensures WellFormed(StepPlain(w, m))
  {
    var m1 := StepPlain(w, m);
    StepKeepsFlash(w, m);
    LockedFlashKept(m1.(cpu := w.devices(m1).cpu), w.devices(m1).stores);
  }

  lemma StepKeepsFlash<I, R>(w: World<I, R>, m: Machine<R>)
    requires WellFormed(m)
    ensures StepPlain(w, m).firmware == m.firmware && StepPlain(w, m).cartridge == m.cartridge
  {
    if m.cpu.pc % 4 == 0 {
      var d := DecodeAt(w, m, m.cpu.pc);
      if d.Found? { PerformKeeps(w, m, d.inst); }
    }
  }

  // ---- what the programming events answer -------------------------------------

  /** A word the cache holds after a listing was there before, or was decoded at an address
      shown. */
  ghost predicate ListedFrom<I, R>(w: World<I, R>, s: Cached<I, R>, shown: seq<Addr>, c: Cache<I>, k: int) {
    k in c ==> (k in s.c && c[k] == s.c[k]) || exists i :: 0 <= i < |shown| && ListedAs(w, s.m, shown[i], k, c)
  }

  ghost predicate ListedAs<I, R>(w: World<I, R>, m: Machine<R>, a: Addr, k: int, c: Cache<I>) {
    a / 4 == k && k in c && DecodeAt(w, m, a) == Found(c[k])
  }

  /** A listing that answers breaks off nowhere: each word is in the cache afterwards, or does not
      decode. */
  ghost predicate Listed<I, R>(w: World<I, R>, m: Machine<R>, c: Cache<I>, a: Addr) { a / 4 in c || DecodeAt(w, m, a).Illegal? }

  lemma {:induction false} ShowFills<I, R>(w: World<I, R>, s: Cached<I, R>, shown: seq<Addr>)
    ensures var r := Show(w, s, shown);
      && r.s.m == s.m && !r.reply.Rejected?
      && (forall k :: k in s.c ==> k in r.s.c && r.s.c[k] == s.c[k])
      && (forall k :: ListedFrom(w, s, shown, r.s.c, k))
      && (r.reply.Done? ==> forall i :: 0 <= i < |shown| ==> Listed(w, s.m, r.s.c, shown[i]))
      && (r.reply.Threw? ==> exists i :: 0 <= i < |shown| && DecodeAt(w, s.m, shown[i]).Unreadable?)
    decreases |shown|
  {
    if shown != [] && !Fetched(w, s, shown[0]).Unreadable? {
      var s1 := s.(c := Filled(s.c, shown[0], Fetched(w, s, shown[0])));
      ShowFills(w, s1, shown[1..]);
      ShowMore(w, s, shown, s1);
    }
  }

  lemma ShowMore<I, R>(w: World<I, R>, s: Cached<I, R>, shown: seq<Addr>, s1: Cached<I, R>)
    requires shown != [] && !Fetched(w, s, shown[0]).Unreadable? && s1 == s.(c := Filled(s.c, shown[0], Fetched(w, s, shown[0])))
    requires var r := Show(w, s1, shown[1..]);
      && (forall k :: k in s1.c ==> k in r.s.c && r.s.c[k] == s1.c[k])
      && (forall k :: ListedFrom(w, s1, shown[1..], r.s.c, k))
      && (r.reply.Done? ==> forall i :: 0 <= i < |shown[1..]| ==> Listed(w, s.m, r.s.c, shown[1..][i]))
      && (r.reply.Threw? ==> exists i :: 0 <= i < |shown[1..]| && DecodeAt(w, s.m, shown[1..][i]).Unreadable?)
    ensures var r := Show(w, s, shown);
      && (forall k :: ListedFrom(w, s, shown, r.s.c, k))
      && (r.reply.Done? ==> forall i :: 0 <= i < |shown| ==> Listed(w, s.m, r.s.c, shown[i]))
      && (r.reply.Threw? ==> exists i :: 0 <= i < |shown| && DecodeAt(w, s.m, shown[i]).Unreadable?)
  {
    var r := Show(w, s, shown);
    forall k ensures ListedFrom(w, s, shown, r.s.c, k) {
      assert ListedFrom(w, s1, shown[1..], r.s.c, k);
      if k in s1.c && k !in s.c {
        assert ListedAs(w, s.m, shown[0], k, r.s.c);
      } else if k in r.s.c && k !in s1.c {
        var i :| 0 <= i < |shown[1..]| && ListedAs(w, s1.m, shown[1..][i], k, r.s.c);
        assert ListedAs(w, s.m, shown[i + 1], k, r.s.c);
      }
    }
    if r.reply.Done? {
      forall i | 0 <= i < |shown| ensures Listed(w, s.m, r.s.c, shown[i]) {
        if i > 0 { assert Listed(w, s.m, r.s.c, shown[1..][i - 1]); }
      }
    }
    if r.reply.Threw? {
      var i :| 0 <= i < |shown[1..]| && DecodeAt(w, s.m, shown[1..][i]).Unreadable?;
      assert shown[i + 1] == shown[1..][i];
    }
  }

  /** What programming the firmware answers: rejected with no change; broken off half way with
      writing enabled; or done, unless the listing breaks off. */
  lemma ProgramAnswers<I, R>(w: World<I, R>, s: Cached<I, R>, hs: seq<Header>, shown: seq<Addr>)
    requires WellFormed(s.m)
    ensures var r := ProgramFirmwareCached(w, s, hs, shown);
      && (r.reply.Rejected? <==> !AllAccepted(FIRMWARE_BASE, hs))
      && (r.reply.Rejected? ==> r.s == s)
      && (AllAccepted(FIRMWARE_BASE, hs) ==>
            (r.s.m.firmware.writeEnabled <==> exists h :: h in hs && !FitsIn(s.m.firmware, h)))
      && (r.s.m.firmware.writeEnabled ==> r.reply.Threw? && r.s.c == s.c && r.s.m.cpu == s.m.cpu)
  {
    AcceptedFit(s.m.firmware, hs);
    ProgramCompletes(s.m.firmware, hs);
    if AllAccepted(FIRMWARE_BASE, hs) && Program(s.m.firmware, hs).Stored? {
      var f := Program(s.m.firmware, hs).f;
      ShowFills(w, Cached(s.m.(firmware := f, cpu := w.reset(s.m.cpu)), Flush(s.c, FIRMWARE_BASE, FLASH_SIZE)), shown);
    }
  }

  lemma InsertAnswers<I, R>(w: World<I, R>, s: Cached<I, R>, hs: seq<Header>, entry: Addr, shown: seq<Addr>)
    requires WellFormed(s.m)
    ensures var r := InsertCartridgeCached(w, s, hs, entry, shown);
      && (r.reply.Rejected? <==> !AllAccepted(CARTRIDGE_BASE, hs))
      && (r.reply.Rejected? ==> r.s == s)
      && (AllAccepted(CARTRIDGE_BASE, hs) ==>
            (r.s.m.cartridge.writeEnabled <==> exists h :: h in hs && !FitsIn(s.m.cartridge, h)))
      && (r.s.m.cartridge.writeEnabled ==> r.reply.Threw? && r.s.c == s.c && r.s.m.cpu == s.m.cpu)
  {
    AcceptedFit(s.m.cartridge, hs);
    ProgramCompletes(s.m.cartridge, hs);
    if AllAccepted(CARTRIDGE_BASE, hs) && Program(s.m.cartridge, hs).Stored? {
      var f := Program(s.m.cartridge, hs).f;
      ShowFills(w, Cached(s.m.(cartridge := f, cpu := w.inserted(s.m.cpu, entry)), Flush(s.c, CARTRIDGE_BASE, FLASH_SIZE)), shown);
    }
  }

  lemma AcceptedFit(f: Flash, hs: seq<Header>)
    requires Placed(f)
    ensures (forall h :: h in hs ==> Fits(f, h)) <==> (forall h :: h in hs ==> FitsIn(f, h))
    ensures !Program(f, hs).Stored? ==> Program(f, hs).f.writeEnabled
  {
    forall h | h in hs ensures Fits(f, h) <==> FitsIn(f, h) { InRangeMeans(f, Start(h), |h.payload|); }
    ProgramCompletes(f, hs);
  }
}
