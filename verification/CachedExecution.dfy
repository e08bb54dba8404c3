/** Execution with an instruction cache against execution without one.

    Decoding, the effect of one instruction and the memory outside flash are parameters: any
    deterministic functions do.  What is modelled is everything that could make a cached instruction stale: the
    fetch path, the write protection of the two flash memories, and the three events that
    rewrite them. */
module CachedExecution {
  import opened InstructionCache
  import opened MachineWords

  const FIRMWARE_BASE: Addr := 0x0000_0000
  const CARTRIDGE_BASE: Addr := 0x2000_0000
  const FLASH_SIZE := 0x100_0000

  // ---- flash memory -----------------------------------------------------------

  datatype Flash = Flash(base: Addr, data: seq<Byte>, writeEnabled: bool)

  datatype StoreResult = Stored(f: Flash) | OutOfRange(f: Flash)

  /** AccessAddress.  The index is a 32-bit difference; its sum with a size stays below 2^32
      for every size considered here. */
  predicate InRange(f: Flash, addr: Addr, size: nat) {
    var index := Wrap(addr - f.base);
    index < |f.data| && index + size <= |f.data|
  }

  function EraseAll(f: Flash): Flash {
    if f.writeEnabled then f.(data := seq(|f.data|, _ => 0)) else f
  }

  /** Every store is silently dropped while writing is disabled, even out of range. */
  function StoreData(f: Flash, addr: Addr, src: seq<Byte>): StoreResult {
    if !f.writeEnabled then Stored(f)
    else if !InRange(f, addr, |src|) then OutOfRange(f)
    else
      var i := Wrap(addr - f.base);
      Stored(f.(data := f.data[..i] + src + f.data[i + |src|..]))
  }

  // ---- the machine ------------------------------------------------------------

  /** The CPU registers that the fetch path and traps touch; `rest` is everything else. */
  datatype Cpu<R> = Cpu(
    pc: Addr, mtvec: Addr, mstatus: bv32, mie: bv32, mip: bv32, mcause: Addr, mepc: Addr,
    cycle: int, retired: int, rest: R)

  datatype Machine<R> = Machine(cpu: Cpu<R>, firmware: Flash, cartridge: Flash)

  datatype Outcome = Executed | Refused | Faulted

  /** What executing an instruction, or a device step, does: the new CPU state and the byte
      stores it makes to the flash memories. */
  datatype Effect<R> = Effect(outcome: Outcome, cpu: Cpu<R>, stores: seq<(Addr, Byte)>)

  /** decode: address and raw word; load: the word at an address outside flash, nothing where
      the memory throws; execute: a decoded instruction; storeBit: bit 5 of its raw word, which
      tells a store fault from a load fault; devices: DMA, timers and the rest of
      a system step; reset, inserted, removed: what resetting the components and the cartridge
      events do to the registers. */
  datatype World<!I, !R> = World(
    decode: (Addr, int) -> Option<I>,
    load: (Machine<R>, Addr) -> Option<int>,
    execute: (I, Machine<R>) -> Effect<R>,
    storeBit: I -> bool,
    devices: Machine<R> -> Effect<R>,
    reset: Cpu<R> -> Cpu<R>,
    inserted: (Cpu<R>, Addr) -> Cpu<R>,
    removed: Cpu<R> -> Cpu<R>)

  predicate Locked<R>(m: Machine<R>) { (m.firmware.writeEnabled, m.cartridge.writeEnabled) == (false, false) }

  predicate IsFlash(f: Flash, base: Addr) { (f.base, |f.data|) == (base, FLASH_SIZE) }

  predicate Mapped<R>(m: Machine<R>) { IsFlash(m.firmware, FIRMWARE_BASE) && IsFlash(m.cartridge, CARTRIDGE_BASE) }

  predicate WellFormed<R>(m: Machine<R>) { Mapped(m) && Locked(m) }

  predicate InFirmware(a: Addr) { FIRMWARE_BASE <= a < FIRMWARE_BASE + FLASH_SIZE }
  predicate InCartridge(a: Addr) { CARTRIDGE_BASE <= a < CARTRIDGE_BASE + FLASH_SIZE }
  predicate InFlash(a: Addr) { InFirmware(a) || InCartridge(a) }

  function WordAt(f: Flash, i: nat): int
    requires i + 4 <= |f.data|
  {
    var b0: int, b1: int, b2: int, b3: int := f.data[i], f.data[i + 1], f.data[i + 2], f.data[i + 3];
    b0 + 0x100 * b1 + 0x1_0000 * b2 + 0x100_0000 * b3
  }

  /** LoadUINT32 of a flash memory; nothing where it throws. */
  function LoadFlash(f: Flash, a: Addr): Option<int> {
    if InRange(f, a, 4) then Some(WordAt(f, Wrap(a - f.base))) else None
  }

  /** The word at an address, aligned or not. */
  function LoadWord<I, R>(w: World<I, R>, m: Machine<R>, a: Addr): Option<int> {
    if InFirmware(a) then LoadFlash(m.firmware, a)
    else if InCartridge(a) then LoadFlash(m.cartridge, a)
    else w.load(m, a)
  }

  datatype Decoded<+I> = Unreadable | Illegal | Found(inst: I)

  /** DecodeInstruction */
  function DecodeAt<I, R>(w: World<I, R>, m: Machine<R>, a: Addr): Decoded<I> {
    match LoadWord(w, m, a)
    case None => Unreadable
    case Some(raw) => match w.decode(a, raw) case None => Illegal case Some(inst) => Found(inst)
  }

  function StoreByte<R>(m: Machine<R>, a: Addr, v: Byte): Machine<R> {
    if InFirmware(a) then m.(firmware := StoreData(m.firmware, a, [v]).f)
    else if InCartridge(a) then m.(cartridge := StoreData(m.cartridge, a, [v]).f)
    else m
  }

  function StoreAll<R>(m: Machine<R>, stores: seq<(Addr, Byte)>): Machine<R>
    decreases |stores|
  {
    if stores == [] then m else StoreAll(StoreByte(m, stores[0].0, stores[0].1), stores[1..])
  }

  /** Write protection: no execution changes a locked flash memory. */
  lemma {:induction false} LockedFlashKept<R>(m: Machine<R>, stores: seq<(Addr, Byte)>)
    requires Locked(m)
    ensures StoreAll(m, stores) == m
  {
    if stores != [] { LockedFlashKept(m, stores[1..]); }
  }

  /** Vectored when the low bit of mtvec is set. */
  function TrapTarget(mtvec: Addr, cause: Addr): Addr {
    if mtvec % 2 == 1 then Wrap(mtvec + cause * 4 - 1) else mtvec
  }

  /** MIE moves into MPIE. */
  function TrapStatus(mstatus: bv32): bv32 { (mstatus & 0x1800) | ((mstatus & 0x8) << 4) }

  function InvokeTrap<R>(c: Cpu<R>, cause: Addr, interrupt: bool): Cpu<R>
    requires cause < 16
  {
    c.(mcause := cause + (if interrupt then 0x8000_0000 else 0), mstatus := TrapStatus(c.mstatus),
       mepc := c.pc, pc := TrapTarget(c.mtvec, cause))
  }

  /** External before timer before software. */
  function InterruptCause(pending: bv32): (cause: Addr)
    ensures cause < 16
  {
    if pending & 0x800 != 0 then 11 else if pending & 0x80 != 0 then 7 else if pending & 0x8 != 0 then 3 else 0
  }

  predicate Interrupted<R>(c: Cpu<R>) { c.mip != 0 && c.mip & c.mie != 0 && c.mstatus & 0x8 != 0 }

  function CheckInterrupts<R>(c: Cpu<R>): Cpu<R> {
    if Interrupted(c) then InvokeTrap(c, InterruptCause(c.mip & c.mie), true) else c
  }

  function Retire<R>(c: Cpu<R>): Cpu<R> { CheckInterrupts(c.(cycle := c.cycle + 1, retired := c.retired + 1)) }

  /** The part of ExecuteInstruction after an instruction has been found. */
  function Perform<I, R>(w: World<I, R>, m: Machine<R>, inst: I): Machine<R> {
    var e := w.execute(inst, m);
    var m1 := StoreAll(m.(cpu := e.cpu), e.stores);
    match e.outcome
    case Executed => m1.(cpu := Retire(e.cpu))
    case Refused => m1
    case Faulted => m1.(cpu := InvokeTrap(e.cpu, if w.storeBit(inst) then 7 else 5, false))
  }

  /** ExecuteInstruction once the cache and memory have been asked. */
  function CarryOut<I, R>(w: World<I, R>, m: Machine<R>, d: Decoded<I>): Machine<R> {
    match d
    case Unreadable => m.(cpu := InvokeTrap(m.cpu, 1, false))
    case Illegal => m.(cpu := InvokeTrap(m.cpu, 2, false))
    case Found(inst) => Perform(w, m, inst)
  }

  /** ExecuteInstruction with the null cache. */
  function StepPlain<I, R>(w: World<I, R>, m: Machine<R>): Machine<R> {
    if m.cpu.pc % 4 != 0 then m.(cpu := InvokeTrap(m.cpu, 0, false))
    else CarryOut(w, m, DecodeAt(w, m, m.cpu.pc))
  }

  datatype Cached<!I, R> = Cached(m: Machine<R>, c: Cache<I>)

  /** The instruction at an address, from the cache, as a map from word numbers, or from
      memory. */
  ghost function Fetched<I, R>(w: World<I, R>, s: Cached<I, R>, a: Addr): Decoded<I> {
    if a / 4 in s.c then Found(s.c[a / 4]) else DecodeAt(w, s.m, a)
  }

  /** The cache after that. */
  ghost function Filled<I>(c: Cache<I>, a: Addr, d: Decoded<I>): Cache<I> {
    if d.Found? && a / 4 !in c then c[a / 4 := d.inst] else c
  }

  /** ExecuteInstruction with the block cache. */
  ghost function StepCached<I, R>(w: World<I, R>, s: Cached<I, R>): Cached<I, R> {
    var pc := s.m.cpu.pc;
    if pc % 4 != 0 then s.(m := s.m.(cpu := InvokeTrap(s.m.cpu, 0, false)))
    else
      var d := Fetched(w, s, pc);
      Cached(CarryOut(w, s.m, d), Filled(s.c, pc, d))
  }

  // ---- programming the flash memories -----------------------------------------

  const WORD64 := 0x1_0000_0000_0000_0000

  /** A program header: physical address and payload of the file size. */
  datatype Header = Header(paddr: int, payload: seq<Byte>)

  predicate HeaderOk(h: Header) { 0 <= h.paddr < WORD64 && |h.payload| < 0x8000_0000 }

  /** The range check both programming functions make first, with 64-bit sums. */
  predicate Accepted(base: Addr, h: Header) {
    !(h.paddr < base || base + FLASH_SIZE < (h.paddr + |h.payload|) % WORD64)
  }

  predicate AllAccepted(base: Addr, hs: seq<Header>) {
    forall h :: h in hs ==> Accepted(base, h)
  }

  function StoreHeaders(f: Flash, hs: seq<Header>): StoreResult
    decreases |hs|
  {
    if hs == [] then Stored(f)
    else match StoreData(f, Wrap(hs[0].paddr), hs[0].payload)
      case OutOfRange(g) => OutOfRange(g)
      case Stored(g) => StoreHeaders(g, hs[1..])
  }

  /** Erase and rewrite.  A failing store leaves an exception behind: writing stays enabled. */
  function Program(f: Flash, hs: seq<Header>): StoreResult {
    match StoreHeaders(EraseAll(f.(writeEnabled := true)), hs)
    case OutOfRange(g) => OutOfRange(g)
    case Stored(g) => Stored(g.(writeEnabled := false))
  }

  predicate Fits(f: Flash, h: Header) { InRange(f, Wrap(h.paddr), |h.payload|) }

  lemma SameFit(f: Flash, g: Flash, hs: seq<Header>)
    requires f.base == g.base && |f.data| == |g.data|
    ensures (forall h :: h in hs ==> Fits(f, h)) <==> (forall h :: h in hs ==> Fits(g, h))
  {
  }

  lemma {:induction false} StoreHeadersFits(f: Flash, hs: seq<Header>)
    requires f.writeEnabled
    ensures StoreHeaders(f, hs).Stored? <==> forall h :: h in hs ==> Fits(f, h)
    ensures var r := StoreHeaders(f, hs).f; r.base == f.base && |r.data| == |f.data| && r.writeEnabled
    decreases |hs|
  {
    if hs != [] {
      assert hs == [hs[0]] + hs[1..];
      var g := StoreData(f, Wrap(hs[0].paddr), hs[0].payload).f;
      if Fits(f, hs[0]) {
        StoreHeadersFits(g, hs[1..]);
        SameFit(f, g, hs[1..]);
      }
    }
  }

  /** Programming completes exactly when every payload fits. */
  lemma ProgramCompletes(f: Flash, hs: seq<Header>)
    ensures Program(f, hs).Stored? <==> forall h :: h in hs ==> Fits(f, h)
    ensures var r := Program(f, hs).f; r.base == f.base && |r.data| == |f.data|
    ensures Program(f, hs).Stored? <==> !Program(f, hs).f.writeEnabled
  {
    var g := EraseAll(f.(writeEnabled := true));
    StoreHeadersFits(g, hs);
    SameFit(f, g, hs);
  }

  /** The range check does not imply that the payload fits: an accepted header fits exactly
      when it starts below the end of the flash. */
  lemma AcceptedFits(f: Flash, h: Header)
    requires f.base == FIRMWARE_BASE || f.base == CARTRIDGE_BASE
    requires |f.data| == FLASH_SIZE && HeaderOk(h) && Accepted(f.base, h)
    ensures Fits(f, h) <==> h.paddr < f.base + FLASH_SIZE
  {
  }

  /** There are two ways to be accepted and start further up: an empty payload at the very end,
      and a payload so far up that the 64-bit sum of the check wraps. */
  lemma AcceptedAbove(base: Addr, h: Header)
    requires base == FIRMWARE_BASE || base == CARTRIDGE_BASE
    requires HeaderOk(h) && h.paddr >= base + FLASH_SIZE
    ensures Accepted(base, h) <==>
      || (h.paddr == base + FLASH_SIZE && h.payload == [])
      || WORD64 <= h.paddr + |h.payload| <= WORD64 + base + FLASH_SIZE
  {
  }

  lemma EmptyHeaderAtTheEnd()
    ensures var h := Header(FIRMWARE_BASE + FLASH_SIZE, []);
      Accepted(FIRMWARE_BASE, h)
      && forall f: Flash :: f.base == FIRMWARE_BASE && |f.data| == FLASH_SIZE ==> Program(f, [h]).OutOfRange?
  {
    AcceptedNeverFits(Header(FIRMWARE_BASE + FLASH_SIZE, []));
  }

  lemma OverflowingHeader()
    ensures var h := Header(WORD64 - 4, [1, 2, 3, 4, 5, 6, 7, 8]);
      Accepted(FIRMWARE_BASE, h)
      && forall f: Flash :: f.base == FIRMWARE_BASE && |f.data| == FLASH_SIZE ==> Program(f, [h]).OutOfRange?
  {
    AcceptedNeverFits(Header(WORD64 - 4, [1, 2, 3, 4, 5, 6, 7, 8]));
  }

  lemma AcceptedNeverFits(h: Header)
    requires HeaderOk(h) && h.paddr >= FIRMWARE_BASE + FLASH_SIZE && Accepted(FIRMWARE_BASE, h)
    ensures forall f: Flash :: f.base == FIRMWARE_BASE && |f.data| == FLASH_SIZE ==> Program(f, [h]).OutOfRange?
  {
    forall f: Flash | f.base == FIRMWARE_BASE && |f.data| == FLASH_SIZE ensures Program(f, [h]).OutOfRange? {
      ProgramCompletes(f, [h]);
      AcceptedFits(f, h);
      assert h in [h] && !Fits(f, h);
    }
  }

  // ---- events -----------------------------------------------------------------

  datatype Event =
    | Step                                                 // one SystemStep
    | ProgramFirmware(hs: seq<Header>, shown: seq<Addr>)
    | InsertCartridge(hs: seq<Header>, entry: Addr, shown: seq<Addr>)
    | RemoveCartridge
    | ResetAll

  function DeviceStep<I, R>(w: World<I, R>, m: Machine<R>): Machine<R> {
    var e := w.devices(m);
    StoreAll(m.(cpu := e.cpu), e.stores)
  }

  function ApplyPlain<I, R>(w: World<I, R>, m: Machine<R>, e: Event): Machine<R> {
    match e
    case Step => DeviceStep(w, StepPlain(w, m))
    case ProgramFirmware(hs, _) =>
      if !AllAccepted(FIRMWARE_BASE, hs) then m
      else (match Program(m.firmware, hs)
            case OutOfRange(f) => m.(firmware := f)
            case Stored(f) => m.(firmware := f, cpu := w.reset(m.cpu)))
    case InsertCartridge(hs, entry, _) =>
      if !AllAccepted(CARTRIDGE_BASE, hs) then m
      else (match Program(m.cartridge, hs)
            case OutOfRange(f) => m.(cartridge := f)
            case Stored(f) => m.(cartridge := f, cpu := w.inserted(m.cpu, entry)))
    case RemoveCartridge => m.(cartridge := Program(m.cartridge, []).f, cpu := w.removed(m.cpu))
    case ResetAll => m.(cpu := w.reset(m.cpu))
  }

  datatype Reply = Done | Rejected | Threw

  datatype Replied<!I, R> = Replied(s: Cached<I, R>, reply: Reply)

  /** Listing a program decodes the shown addresses through the cache; it breaks off where a
      word cannot be read. */
  ghost function Show<I, R>(w: World<I, R>, s: Cached<I, R>, shown: seq<Addr>): Replied<I, R>
    decreases |shown|
  {
    if shown == [] then Replied(s, Done)
    else
      var d := Fetched(w, s, shown[0]);
      if d.Unreadable? then Replied(s, Threw) else Show(w, s.(c := Filled(s.c, shown[0], d)), shown[1..])
  }

  ghost function ProgramFirmwareCached<I, R>(w: World<I, R>, s: Cached<I, R>, hs: seq<Header>, shown: seq<Addr>): Replied<I, R> {
    if !AllAccepted(FIRMWARE_BASE, hs) then Replied(s, Rejected)
    else match Program(s.m.firmware, hs)
      case OutOfRange(f) => Replied(s.(m := s.m.(firmware := f)), Threw)
      case Stored(f) =>
        Show(w, Cached(s.m.(firmware := f, cpu := w.reset(s.m.cpu)), Flush(s.c, FIRMWARE_BASE, FLASH_SIZE)), shown)
  }

  ghost function InsertCartridgeCached<I, R>(w: World<I, R>, s: Cached<I, R>, hs: seq<Header>, entry: Addr, shown: seq<Addr>):
    Replied<I, R>
  {
    if !AllAccepted(CARTRIDGE_BASE, hs) then Replied(s, Rejected)
    else match Program(s.m.cartridge, hs)
      case OutOfRange(f) => Replied(s.(m := s.m.(cartridge := f)), Threw)
      case Stored(f) =>
        Show(w, Cached(s.m.(cartridge := f, cpu := w.inserted(s.m.cpu, entry)), Flush(s.c, CARTRIDGE_BASE, FLASH_SIZE)), shown)
  }

  ghost function ApplyCached<I, R>(w: World<I, R>, s: Cached<I, R>, e: Event): Cached<I, R> {
    match e
    case Step => var s1 := StepCached(w, s); s1.(m := DeviceStep(w, s1.m))
    case ProgramFirmware(hs, shown) => ProgramFirmwareCached(w, s, hs, shown).s
    case InsertCartridge(hs, entry, shown) => InsertCartridgeCached(w, s, hs, entry, shown).s
    case RemoveCartridge =>
      Cached(s.m.(cartridge := Program(s.m.cartridge, []).f, cpu := w.removed(s.m.cpu)), Flush(s.c, CARTRIDGE_BASE, FLASH_SIZE))
    case ResetAll => s.(m := s.m.(cpu := w.reset(s.m.cpu)))
  }

  // ---- coherence --------------------------------------------------------------

  /** The CPU is about to trap on a misaligned address or to fetch from flash. */
  predicate FetchesFlash<R>(m: Machine<R>) { m.cpu.pc % 4 != 0 || InFlash(m.cpu.pc) }

  predicate Readable(a: Addr) { a % FLASH_SIZE + 4 <= FLASH_SIZE }

  /** A word in flash that is not aligned, and that can be read. */
  predicate Misread(a: Addr) { InFlash(a) && a % 4 != 0 && Readable(a) }

  const FIRMWARE_LAST: Addr := 0x00FF_FFFC
  const CARTRIDGE_LAST: Addr := 0x20FF_FFFC

  function WordOf(a: Addr): Addr { a - a % 4 }

  /** The listing has no such word before it breaks off: where the word cannot be read, unless
      the last word of that flash, which shares its place in the cache, can be cached. */
  predicate Lists(uncached: set<Addr>, shown: seq<Addr>)
    decreases |shown|
  {
    if shown == [] || (InFlash(shown[0]) && !Readable(shown[0]) && WordOf(shown[0]) in uncached) then true
    else !Misread(shown[0]) && Lists(uncached - {shown[0]}, shown[1..])
  }

  /** What a caller has to see to: fetch from flash, list aligned words, program what fits.
      Programming has just emptied the cache for its own flash. */
  predicate Safe<R>(m: Machine<R>, e: Event) {
    match e
    case Step => FetchesFlash(m)
    case ProgramFirmware(hs, shown) =>
      AllAccepted(FIRMWARE_BASE, hs) ==> Lists({FIRMWARE_LAST}, shown) && forall h :: h in hs ==> Fits(m.firmware, h)
    case InsertCartridge(hs, _, shown) =>
      AllAccepted(CARTRIDGE_BASE, hs) ==> Lists({CARTRIDGE_LAST}, shown) && forall h :: h in hs ==> Fits(m.cartridge, h)
    case _ => true
  }

  /** Every cached flash instruction is the decoding of the word now in flash. */
  ghost predicate Coherent<I, R>(w: World<I, R>, s: Cached<I, R>) {
    forall k :: k in s.c && 0 <= k < WORD / 4 && InFlash(4 * k) ==> DecodeAt(w, s.m, 4 * k) == Found(s.c[k])
  }

  lemma PerformKeeps<I, R>(w: World<I, R>, m: Machine<R>, inst: I)
    requires WellFormed(m)
    ensures Perform(w, m, inst).firmware == m.firmware && Perform(w, m, inst).cartridge == m.cartridge
  {
    var e := w.execute(inst, m);
    LockedFlashKept(m.(cpu := e.cpu), e.stores);
  }

  lemma DeviceKeeps<I, R>(w: World<I, R>, m: Machine<R>)
    requires WellFormed(m)
    ensures DeviceStep(w, m).firmware == m.firmware && DeviceStep(w, m).cartridge == m.cartridge
  {
    var e := w.devices(m);
    LockedFlashKept(m.(cpu := e.cpu), e.stores);
  }

  /** Only the flash memories matter. */
  lemma CoherentFlash<I, R>(w: World<I, R>, s: Cached<I, R>, m1: Machine<R>)
    requires Coherent(w, s) && m1.firmware == s.m.firmware && m1.cartridge == s.m.cartridge
    ensures Coherent(w, s.(m := m1))
  {
    forall k | k in s.c && 0 <= k < WORD / 4 && InFlash(4 * k) ensures DecodeAt(w, m1, 4 * k) == Found(s.c[k]) {
      assert DecodeAt(w, m1, 4 * k) == DecodeAt(w, s.m, 4 * k);
    }
  }

  /** An aligned word, or one outside flash, is entered under its own number. */
  lemma NewWord(a: Addr, k: int)
    requires k == a / 4 && InFlash(4 * k) && !Misread(a)
    ensures InFlash(a) && (a % 4 == 0 ==> 4 * k == a) && (a % 4 != 0 ==> !Readable(a))
  {
  }

  lemma UnreadableWord<I, R>(w: World<I, R>, m: Machine<R>, a: Addr)
    requires Mapped(m) && InFlash(a) && !Readable(a)
    ensures DecodeAt(w, m, a) == Unreadable
  {
  }

  lemma FilledWord<I, R>(w: World<I, R>, s: Cached<I, R>, a: Addr, k: int)
    requires Mapped(s.m) && !Misread(a) && a / 4 !in s.c && DecodeAt(w, s.m, a).Found? && k == a / 4 && InFlash(4 * k)
    ensures DecodeAt(w, s.m, 4 * k) == DecodeAt(w, s.m, a)
  {
    NewWord(a, k);
    if a % 4 != 0 { UnreadableWord(w, s.m, a); }
  }

  /** Looking up such a word gives what memory holds in flash and keeps the cache coherent. */
  lemma FetchKeeps<I, R>(w: World<I, R>, s: Cached<I, R>, a: Addr)
    requires Coherent(w, s) && Mapped(s.m) && !Misread(a)
    ensures Coherent(w, s.(c := Filled(s.c, a, Fetched(w, s, a))))
    ensures InFlash(a) && a % 4 == 0 ==> Fetched(w, s, a) == DecodeAt(w, s.m, a)
  {
    if InFlash(a) && a % 4 == 0 { assert 4 * (a / 4) == a; }
    var d := Fetched(w, s, a);
    var c1 := Filled(s.c, a, d);
    forall k | k in c1 && 0 <= k < WORD / 4 && InFlash(4 * k) ensures DecodeAt(w, s.m, 4 * k) == Found(c1[k]) {
      if k !in s.c { FilledWord(w, s, a, k); }
    }
  }

  /** One instruction: same machine with and without the cache, which stays coherent. */
  lemma StepAgrees<I, R>(w: World<I, R>, s: Cached<I, R>)
    requires WellFormed(s.m) && FetchesFlash(s.m) && Coherent(w, s)
    ensures StepCached(w, s).m == StepPlain(w, s.m)
    ensures WellFormed(StepCached(w, s).m) && Coherent(w, StepCached(w, s))
  {
    var pc := s.m.cpu.pc;
    if pc % 4 == 0 {
      var d := Fetched(w, s, pc);
      FetchKeeps(w, s, pc);
      if d.Found? { PerformKeeps(w, s.m, d.inst); }
    }
    CoherentFlash(w, s.(c := StepCached(w, s).c), StepCached(w, s).m);
  }

  lemma FlushDropsFirmware<I>(c: Cache<I>, k: int)
    requires k in Flush(c, FIRMWARE_BASE, FLASH_SIZE)
    ensures k in c && 0 <= k < WORD / 4 && !InFirmware(4 * k)
  {
    if InFirmware(4 * k) { FlushCovers(4 * k, FIRMWARE_BASE, FLASH_SIZE); }
  }

  lemma FlushDropsCartridge<I>(c: Cache<I>, k: int)
    requires k in Flush(c, CARTRIDGE_BASE, FLASH_SIZE)
    ensures k in c && 0 <= k < WORD / 4 && !InCartridge(4 * k)
  {
    if InCartridge(4 * k) { FlushCovers(4 * k, CARTRIDGE_BASE, FLASH_SIZE); }
  }

  lemma LastFlushed<I>(c: Cache<I>)
    ensures NotCached(Flush(c, FIRMWARE_BASE, FLASH_SIZE), {FIRMWARE_LAST})
    ensures NotCached(Flush(c, CARTRIDGE_BASE, FLASH_SIZE), {CARTRIDGE_LAST})
  {
    if FIRMWARE_LAST / 4 in Flush(c, FIRMWARE_BASE, FLASH_SIZE) { FlushDropsFirmware(c, FIRMWARE_LAST / 4); }
    if CARTRIDGE_LAST / 4 in Flush(c, CARTRIDGE_BASE, FLASH_SIZE) { FlushDropsCartridge(c, CARTRIDGE_LAST / 4); }
  }

  lemma FirmwareFlushed<I, R>(w: World<I, R>, s: Cached<I, R>, m1: Machine<R>)
    requires Coherent(w, s) && m1.cartridge == s.m.cartridge
    ensures Coherent(w, Cached(m1, Flush(s.c, FIRMWARE_BASE, FLASH_SIZE)))
  {
    var c1 := Flush(s.c, FIRMWARE_BASE, FLASH_SIZE);
    forall k | k in c1 && 0 <= k < WORD / 4 && InFlash(4 * k) ensures DecodeAt(w, m1, 4 * k) == Found(c1[k]) {
      FlushDropsFirmware(s.c, k);
      assert InCartridge(4 * k) && DecodeAt(w, m1, 4 * k) == DecodeAt(w, s.m, 4 * k);
    }
  }

  lemma CartridgeFlushed<I, R>(w: World<I, R>, s: Cached<I, R>, m1: Machine<R>)
    requires Coherent(w, s) && m1.firmware == s.m.firmware
    ensures Coherent(w, Cached(m1, Flush(s.c, CARTRIDGE_BASE, FLASH_SIZE)))
  {
    var c1 := Flush(s.c, CARTRIDGE_BASE, FLASH_SIZE);
    forall k | k in c1 && 0 <= k < WORD / 4 && InFlash(4 * k) ensures DecodeAt(w, m1, 4 * k) == Found(c1[k]) {
      FlushDropsCartridge(s.c, k);
      assert InFirmware(4 * k) && DecodeAt(w, m1, 4 * k) == DecodeAt(w, s.m, 4 * k);
    }
  }

  predicate NotCached<I>(c: Cache<I>, uncached: set<Addr>) {
    forall u :: u in uncached ==> u % 4 == 0 && InFlash(u) && u / 4 !in c
  }

  /** A listing that breaks off before any misaligned word of flash keeps the cache coherent. */
  lemma {:induction false} ShowKeeps<I, R>(w: World<I, R>, s: Cached<I, R>, uncached: set<Addr>, shown: seq<Addr>)
    requires Mapped(s.m) && Coherent(w, s) && NotCached(s.c, uncached) && Lists(uncached, shown)
    ensures Show(w, s, shown).s.m == s.m && Coherent(w, Show(w, s, shown).s)
    decreases |shown|
  {
    if shown != [] && !Fetched(w, s, shown[0]).Unreadable? {
      var x := shown[0];
      ListedKeeps(w, s, uncached, x);
      FetchKeeps(w, s, x);
      ShowKeeps(w, s.(c := Filled(s.c, x, Fetched(w, s, x))), uncached - {x}, shown[1..]);
    }
  }

  /** A listing that goes on at a word of a flash memory whose last word is not cached. */
  lemma ListedKeeps<I, R>(w: World<I, R>, s: Cached<I, R>, uncached: set<Addr>, x: Addr)
    requires Mapped(s.m) && NotCached(s.c, uncached) && !Fetched(w, s, x).Unreadable?
    ensures !(InFlash(x) && !Readable(x) && WordOf(x) in uncached)
    ensures !Misread(x) ==> NotCached(Filled(s.c, x, Fetched(w, s, x)), uncached - {x})
  {
    WordNumber(x);
    if InFlash(x) && !Readable(x) { UnreadableWord(w, s.m, x); }
    forall u | u in uncached - {x} && u / 4 == x / 4 ensures Misread(x) {
      assert u == WordOf(x);
    }
  }

  lemma WordNumber(x: Addr)
    ensures WordOf(x) / 4 == x / 4 && (x % 4 != 0 ==> WordOf(x) != x)
    ensures InFlash(WordOf(x)) <==> InFlash(x)
    ensures forall u: Addr :: u % 4 == 0 && u / 4 == x / 4 ==> u == WordOf(x)
  {
  }

  lemma FirmwareAgrees<I, R>(w: World<I, R>, s: Cached<I, R>, hs: seq<Header>, shown: seq<Addr>)
    requires WellFormed(s.m) && Coherent(w, s) && Safe(s.m, ProgramFirmware(hs, shown))
    ensures var s1 := ProgramFirmwareCached(w, s, hs, shown).s;
      s1.m == ApplyPlain(w, s.m, ProgramFirmware(hs, shown)) && WellFormed(s1.m) && Coherent(w, s1)
  {
    if AllAccepted(FIRMWARE_BASE, hs) {
      ProgramCompletes(s.m.firmware, hs);
      var m1 := s.m.(firmware := Program(s.m.firmware, hs).f, cpu := w.reset(s.m.cpu));
      FirmwareFlushed(w, s, m1);
      LastFlushed(s.c);
      ShowKeeps(w, Cached(m1, Flush(s.c, FIRMWARE_BASE, FLASH_SIZE)), {FIRMWARE_LAST}, shown);
    }
  }

  lemma CartridgeAgrees<I, R>(w: World<I, R>, s: Cached<I, R>, hs: seq<Header>, entry: Addr, shown: seq<Addr>)
    requires WellFormed(s.m) && Coherent(w, s) && Safe(s.m, InsertCartridge(hs, entry, shown))
    ensures var s1 := InsertCartridgeCached(w, s, hs, entry, shown).s;
      s1.m == ApplyPlain(w, s.m, InsertCartridge(hs, entry, shown)) && WellFormed(s1.m) && Coherent(w, s1)
  {
    if AllAccepted(CARTRIDGE_BASE, hs) {
      ProgramCompletes(s.m.cartridge, hs);
      var m1 := s.m.(cartridge := Program(s.m.cartridge, hs).f, cpu := w.inserted(s.m.cpu, entry));
      CartridgeFlushed(w, s, m1);
      LastFlushed(s.c);
      ShowKeeps(w, Cached(m1, Flush(s.c, CARTRIDGE_BASE, FLASH_SIZE)), {CARTRIDGE_LAST}, shown);
    }
  }

  lemma EventAgrees<I, R>(w: World<I, R>, s: Cached<I, R>, e: Event)
    requires WellFormed(s.m) && Coherent(w, s) && Safe(s.m, e)
    ensures ApplyCached(w, s, e).m == ApplyPlain(w, s.m, e)
    ensures WellFormed(ApplyCached(w, s, e).m) && Coherent(w, ApplyCached(w, s, e))
  {
    match e
    case Step =>
      StepAgrees(w, s);
      DeviceKeeps(w, StepCached(w, s).m);
      CoherentFlash(w, StepCached(w, s), DeviceStep(w, StepCached(w, s).m));
    case ProgramFirmware(hs, shown) => FirmwareAgrees(w, s, hs, shown);
    case InsertCartridge(hs, entry, shown) => CartridgeAgrees(w, s, hs, entry, shown);
    case RemoveCartridge =>
      ProgramCompletes(s.m.cartridge, []);
      CartridgeFlushed(w, s, s.m.(cartridge := Program(s.m.cartridge, []).f, cpu := w.removed(s.m.cpu)));
    case ResetAll => CoherentFlash(w, s, s.m.(cpu := w.reset(s.m.cpu)));
  }

  // ---- runs -------------------------------------------------------------------

  ghost predicate IsPlainRun<I, R>(w: World<I, R>, ms: seq<Machine<R>>, es: seq<Event>) {
    |ms| == |es| + 1 && forall i :: 0 <= i < |es| ==> ms[i + 1] == ApplyPlain(w, ms[i], es[i])
  }

  ghost predicate IsCachedRun<I, R>(w: World<I, R>, ss: seq<Cached<I, R>>, es: seq<Event>) {
    |ss| == |es| + 1 && forall i :: 0 <= i < |es| ==> ss[i + 1] == ApplyCached(w, ss[i], es[i])
  }

  /** From the same machine and an empty cache, the machine with the block cache and the one
      without go through identical states. */
  lemma {:induction false} CachedEqualsPlain<I, R>(w: World<I, R>, ss: seq<Cached<I, R>>, ms: seq<Machine<R>>, es: seq<Event>, i: nat)
    requires IsCachedRun(w, ss, es) && IsPlainRun(w, ms, es) && i < |ss|
    requires forall j :: 0 <= j < |es| ==> Safe(ms[j], es[j])
    requires ss[0].m == ms[0] && WellFormed(ms[0]) && ss[0].c == imap[]
    ensures ss[i].m == ms[i] && WellFormed(ms[i]) && Coherent(w, ss[i])
  {
    if i > 0 {
      CachedEqualsPlain(w, ss, ms, es, i - 1);
      EventAgrees(w, ss[i - 1], es[i - 1]);
    }
  }

  // ---- what is not safe -------------------------------------------------------

  /** The two machines have been the same so far, and one step later they are not. */
  ghost predicate PartsNext<I, R>(w: World<I, R>, s: Cached<I, R>, m: Machine<R>) {
    s.m == m && ApplyCached(w, s, Step).m != ApplyPlain(w, m, Step)
  }

  function Idle<R>(pc: Addr, rest: R): Cpu<R> { Cpu(pc, 0, 0, 0, 0, 0, 0, 0, 0, rest) }

  function Zeros(base: Addr): Flash { Flash(base, seq(FLASH_SIZE, _ => 0), false) }

  /** The last word of a flash memory: any later word of it cannot be read. */
  predicate LastWord(a: Addr) { a % FLASH_SIZE == FLASH_SIZE - 4 }

  /** Decodes the misaligned words and the last ones; `pc` is where resets go. */
  function Unaligned(pc: Addr): World<Addr, int> {
    World((a: Addr, raw: int) => if a % 4 != 0 || LastWord(a) then Some(a) else None,
          (m: Machine<int>, a: Addr) => Some(0),
          (inst: Addr, m: Machine<int>) => Effect(Executed, m.cpu, []),
          (inst: Addr) => false,
          (m: Machine<int>) => Effect(Executed, m.cpu, []),
          (cpu: Cpu<int>) => Idle(pc, 0),
          (cpu: Cpu<int>, entry: Addr) => Idle(pc, 0),
          (cpu: Cpu<int>) => cpu)
  }

  /** The first misaligned word of a listing that is not in order. */
  function Culprit(uncached: set<Addr>, shown: seq<Addr>): (a: Addr)
    requires !Lists(uncached, shown)
    ensures Misread(a)
    decreases |shown|
  {
    if Misread(shown[0]) then shown[0] else Culprit(uncached - {shown[0]}, shown[1..])
  }

  lemma {:induction false} ShowGrows<I, R>(w: World<I, R>, s: Cached<I, R>, shown: seq<Addr>)
    ensures Show(w, s, shown).s.m == s.m && forall k :: k in s.c ==> k in Show(w, s, shown).s.c
    decreases |shown|
  {
    if shown != [] && !Fetched(w, s, shown[0]).Unreadable? {
      ShowGrows(w, s.(c := Filled(s.c, shown[0], Fetched(w, s, shown[0]))), shown[1..]);
    }
  }

  /** The last words that are not surely missing are cached. */
  ghost predicate LastHeld<I>(c: Cache<I>, uncached: set<Addr>) {
    && (FIRMWARE_LAST in uncached || FIRMWARE_LAST / 4 in c)
    && (CARTRIDGE_LAST in uncached || CARTRIDGE_LAST / 4 in c)
  }

  lemma ListsOn(pc: Addr, s: Cached<Addr, int>, uncached: set<Addr>, x: Addr)
    requires Mapped(s.m) && LastHeld(s.c, uncached) && !(InFlash(x) && !Readable(x) && WordOf(x) in uncached)
    ensures var d := Fetched(Unaligned(pc), s, x);
      && !d.Unreadable? && LastHeld(Filled(s.c, x, d), uncached - {x})
      && (Misread(x) ==> x / 4 in Filled(s.c, x, d))
  {
    var w := Unaligned(pc);
    if InFlash(x) && !Readable(x) {
      LastWords(x);
    } else if InFlash(x) {
      assert LoadWord(w, s.m, x).Some?;
    }
  }

  /** From a cache that holds them, the listing gets to that word. */
  lemma {:induction false} ShowReaches(pc: Addr, s: Cached<Addr, int>, uncached: set<Addr>, shown: seq<Addr>)
    requires Mapped(s.m) && LastHeld(s.c, uncached) && !Lists(uncached, shown)
    ensures Show(Unaligned(pc), s, shown).s.m == s.m
    ensures Culprit(uncached, shown) / 4 in Show(Unaligned(pc), s, shown).s.c
    decreases |shown|
  {
    var x, w := shown[0], Unaligned(pc);
    ListsOn(pc, s, uncached, x);
    var s1 := s.(c := Filled(s.c, x, Fetched(w, s, x)));
    ShowGrows(w, s1, shown[1..]);
    if !Misread(x) { ShowReaches(pc, s1, uncached - {x}, shown[1..]); }
  }

  lemma UnalignedParts(s: Cached<Addr, int>, a: Addr)
    requires Mapped(s.m) && Misread(a) && a / 4 in s.c && s.m.cpu == Idle(WordOf(a), 0)
    ensures FetchesFlash(s.m) && PartsNext(Unaligned(WordOf(a)), s, s.m)
  {
    var pc := WordOf(a);
    var w := Unaligned(pc);
    assert pc / 4 == a / 4 && pc % 4 == 0 && !LastWord(pc) && InFlash(pc) && Readable(pc);
    assert DecodeAt(w, s.m, pc) == Illegal;
    assert StepPlain(w, s.m).cpu.cycle == 0;
    assert StepCached(w, s).m.cpu.cycle == 1;
  }

  lemma LastWords(x: Addr)
    requires InFlash(x) && !Readable(x)
    ensures WordOf(x) == FIRMWARE_LAST || WordOf(x) == CARTRIDGE_LAST
    ensures x / 4 == WordOf(x) / 4 && x != WordOf(x)
  {
  }

  function ZeroMachine(pc: Addr): (m: Machine<int>)
    ensures WellFormed(m)
  {
    Machine(Idle(pc, 0), Zeros(FIRMWARE_BASE), Zeros(CARTRIDGE_BASE))
  }

  lemma LastWordDecoded(pc: Addr, last: Addr)
    requires last == FIRMWARE_LAST || last == CARTRIDGE_LAST
    ensures DecodeAt(Unaligned(pc), ZeroMachine(pc), last) == Found(last)
  {
    assert LoadWord(Unaligned(pc), ZeroMachine(pc), last).Some?;
  }

  /** A coherent state in which only the two last words are cached. */
  ghost function LastWordsCached(pc: Addr): (s: Cached<Addr, int>)
    ensures WellFormed(s.m) && Coherent(Unaligned(pc), s)
  {
    LastWordDecoded(pc, FIRMWARE_LAST);
    LastWordDecoded(pc, CARTRIDGE_LAST);
    Cached(ZeroMachine(pc), imap[FIRMWARE_LAST / 4 := FIRMWARE_LAST, CARTRIDGE_LAST / 4 := CARTRIDGE_LAST])
  }

  /** Programming what fits leaves the registers as reset makes them. */
  lemma FirmwareFits(w: World<Addr, int>, m: Machine<int>, hs: seq<Header>)
    requires WellFormed(m) && AllAccepted(FIRMWARE_BASE, hs) && forall h :: h in hs ==> Fits(m.firmware, h)
    ensures Program(m.firmware, hs).Stored? && Mapped(m.(firmware := Program(m.firmware, hs).f))
  {
    ProgramCompletes(m.firmware, hs);
  }

  lemma FlushNothing<I>(addr: Addr, size: Addr)
    ensures Flush<I>(imap[], addr, size) == imap[]
  {
  }

  lemma ListedParts(pc: Addr, s: Cached<Addr, int>, uncached: set<Addr>, shown: seq<Addr>)
    requires Mapped(s.m) && LastHeld(s.c, uncached) && !Lists(uncached, shown)
    requires pc == WordOf(Culprit(uncached, shown)) && s.m.cpu == Idle(pc, 0)
    ensures PartsNext(Unaligned(pc), Show(Unaligned(pc), s, shown).s, s.m)
  {
    ShowReaches(pc, s, uncached, shown);
    UnalignedParts(Show(Unaligned(pc), s, shown).s, Culprit(uncached, shown));
  }

  lemma OtherKept(pc: Addr)
    ensures LastHeld(Flush(LastWordsCached(pc).c, FIRMWARE_BASE, FLASH_SIZE), {FIRMWARE_LAST})
  {
    OtherSubBlocks();
  }

  lemma CartridgeOtherKept(pc: Addr)
    ensures LastHeld(Flush(LastWordsCached(pc).c, CARTRIDGE_BASE, FLASH_SIZE), {CARTRIDGE_LAST})
  {
    OtherSubBlocks();
  }

  lemma OtherSubBlocks()
    ensures !Flushed(SubBase(CARTRIDGE_LAST), FIRMWARE_BASE, FLASH_SIZE)
    ensures !Flushed(SubBase(FIRMWARE_LAST), CARTRIDGE_BASE, FLASH_SIZE)
  {
  }

  /** For every listing that is not in order there is a coherent state in which the machines
      part after it. */
  lemma ListingParts(hs: seq<Header>, shown: seq<Addr>)
    requires AllAccepted(FIRMWARE_BASE, hs) && (forall h :: h in hs ==> Fits(Zeros(FIRMWARE_BASE), h))
    requires !Lists({FIRMWARE_LAST}, shown)
    ensures var pc := WordOf(Culprit({FIRMWARE_LAST}, shown));
      var w, s, e := Unaligned(pc), LastWordsCached(pc), ProgramFirmware(hs, shown);
      WellFormed(s.m) && Coherent(w, s) && PartsNext(w, ApplyCached(w, s, e), ApplyPlain(w, s.m, e))
  {
    var pc := WordOf(Culprit({FIRMWARE_LAST}, shown));
    var s := LastWordsCached(pc);
    FirmwareFits(Unaligned(pc), s.m, hs);
    OtherKept(pc);
    ListedParts(pc, Cached(s.m.(firmware := Program(s.m.firmware, hs).f), Flush(s.c, FIRMWARE_BASE, FLASH_SIZE)),
                {FIRMWARE_LAST}, shown);
  }

  /** The same for a cartridge. */
  lemma CartridgeListingParts(hs: seq<Header>, entry: Addr, shown: seq<Addr>)
    requires AllAccepted(CARTRIDGE_BASE, hs) && (forall h :: h in hs ==> Fits(Zeros(CARTRIDGE_BASE), h))
    requires !Lists({CARTRIDGE_LAST}, shown)
    ensures var pc := WordOf(Culprit({CARTRIDGE_LAST}, shown));
      var w, s, e := Unaligned(pc), LastWordsCached(pc), InsertCartridge(hs, entry, shown);
      WellFormed(s.m) && Coherent(w, s) && PartsNext(w, ApplyCached(w, s, e), ApplyPlain(w, s.m, e))
  {
    var pc := WordOf(Culprit({CARTRIDGE_LAST}, shown));
    var s := LastWordsCached(pc);
    ProgramCompletes(s.m.cartridge, hs);
    CartridgeOtherKept(pc);
    ListedParts(pc, Cached(s.m.(cartridge := Program(s.m.cartridge, hs).f), Flush(s.c, CARTRIDGE_BASE, FLASH_SIZE)),
                {CARTRIDGE_LAST}, shown);
  }

  /** From an empty cache it does too, unless the listing breaks off at the end of either flash. */
  lemma MisalignedSection(hs: seq<Header>, shown: seq<Addr>)
    requires AllAccepted(FIRMWARE_BASE, hs) && (forall h :: h in hs ==> Fits(Zeros(FIRMWARE_BASE), h))
    requires !Lists({FIRMWARE_LAST, CARTRIDGE_LAST}, shown)
    ensures var pc := WordOf(Culprit({FIRMWARE_LAST, CARTRIDGE_LAST}, shown));
      var w, m, e := Unaligned(pc), ZeroMachine(pc), ProgramFirmware(hs, shown);
      WellFormed(m) && PartsNext(w, ApplyCached(w, Cached(m, imap[]), e), ApplyPlain(w, m, e))
  {
    var pc := WordOf(Culprit({FIRMWARE_LAST, CARTRIDGE_LAST}, shown));
    var m := ZeroMachine(pc);
    FirmwareFits(Unaligned(pc), m, hs);
    FlushNothing<Addr>(FIRMWARE_BASE, FLASH_SIZE);
    ListedParts(pc, Cached(m.(firmware := Program(m.firmware, hs).f), imap[]), {FIRMWARE_LAST, CARTRIDGE_LAST}, shown);
  }

  /** A section at address 2: its first instruction is cached as that of address 0. */
  lemma SectionAtTwo()
    ensures var w, m, e := Unaligned(0), ZeroMachine(0), ProgramFirmware([], [2]);
      PartsNext(w, ApplyCached(w, Cached(m, imap[]), e), ApplyPlain(w, m, e))
  {
    MisalignedSection([], [2]);
  }

  /** Every word is an instruction, which records itself. */
  const RECORDING: World<int, int> :=
    World((a: Addr, raw: int) => Some(raw),
          (m: Machine<int>, a: Addr) => Some(m.cpu.rest),
          (inst: int, m: Machine<int>) => Effect(Executed, m.cpu.(rest := inst + 1), []),
          (inst: int) => false,
          (m: Machine<int>) => Effect(Executed, m.cpu, []),
          (cpu: Cpu<int>) => cpu,
          (cpu: Cpu<int>, entry: Addr) => cpu,
          (cpu: Cpu<int>) => cpu)

  /** Erasing makes what follows independent of what there was. */
  lemma ProgramForgets(f: Flash, g: Flash, hs: seq<Header>)
    requires f.base == g.base && |f.data| == |g.data|
    ensures Program(f, hs) == Program(g, hs)
  {
    assert EraseAll(f.(writeEnabled := true)).data == EraseAll(g.(writeEnabled := true)).data;
  }

  /** A flash memory with a first byte other than the one given. */
  function Marked(base: Addr, not: Byte): Flash {
    Flash(base, seq(FLASH_SIZE, i => if i == 0 && not == 0 then 1 else 0), false)
  }

  lemma MarkedDiffers(f: Flash, g: Flash)
    requires |g.data| == FLASH_SIZE == |f.data| && f == Marked(g.base, g.data[0])
    ensures LoadFlash(f, f.base).Some? && LoadFlash(g, g.base).Some? && LoadFlash(f, f.base) != LoadFlash(g, g.base)
  {
    assert WordAt(f, 0) % 0x100 == f.data[0] && WordAt(g, 0) % 0x100 == g.data[0];
  }

  /** The word at the program counter has changed, but the cache holds the old one. */
  lemma StaleParts(s: Cached<int, int>, old_: int, new_: int)
    requires s.m.cpu.pc % 4 == 0 && s.m.cpu.mip == 0 && s.m.cpu.pc / 4 in s.c && s.c[s.m.cpu.pc / 4] == old_
    requires LoadWord(RECORDING, s.m, s.m.cpu.pc) == Some(new_) && old_ != new_
    ensures PartsNext(RECORDING, s, s.m)
  {
    assert StepPlain(RECORDING, s.m).cpu.rest == new_ + 1;
    assert StepCached(RECORDING, s).m.cpu.rest == old_ + 1;
  }

  /** The old word at the start of one flash memory is cached; it differs from the one that
      programming leaves there. */
  ghost function StaleFirmware(hs: seq<Header>): (s: Cached<int, int>)
    ensures WellFormed(s.m) && Coherent(RECORDING, s)
  {
    ProgramCompletes(Zeros(FIRMWARE_BASE), hs);
    var f := Marked(FIRMWARE_BASE, Program(Zeros(FIRMWARE_BASE), hs).f.data[0]);
    Cached(ZeroMachine(FIRMWARE_BASE).(firmware := f), imap[FIRMWARE_BASE / 4 := WordAt(f, 0)])
  }

  ghost function StaleCartridge(hs: seq<Header>): (s: Cached<int, int>)
    ensures WellFormed(s.m) && Coherent(RECORDING, s)
  {
    ProgramCompletes(Zeros(CARTRIDGE_BASE), hs);
    var f := Marked(CARTRIDGE_BASE, Program(Zeros(CARTRIDGE_BASE), hs).f.data[0]);
    Cached(ZeroMachine(CARTRIDGE_BASE).(cartridge := f), imap[CARTRIDGE_BASE / 4 := WordAt(f, 0)])
  }

  /** For every accepted program that does not fit there is a coherent state in which the
      machines part afterwards: the flash is erased, the cache is not flushed. */
  lemma ThrowParts(hs: seq<Header>, shown: seq<Addr>)
    requires AllAccepted(FIRMWARE_BASE, hs) && exists h :: h in hs && !Fits(Zeros(FIRMWARE_BASE), h)
    ensures var s, e := StaleFirmware(hs), ProgramFirmware(hs, shown);
      WellFormed(s.m) && Coherent(RECORDING, s) && PartsNext(RECORDING, ApplyCached(RECORDING, s, e), ApplyPlain(RECORDING, s.m, e))
  {
    var s := StaleFirmware(hs);
    var f, g := s.m.firmware, Program(Zeros(FIRMWARE_BASE), hs).f;
    ProgramCompletes(Zeros(FIRMWARE_BASE), hs);
    ProgramForgets(Zeros(FIRMWARE_BASE), f, hs);
    MarkedDiffers(f, g);
    StaleParts(s.(m := s.m.(firmware := g)), WordAt(f, 0), WordAt(g, 0));
  }

  /** The same for a cartridge. */
  lemma CartridgeThrowParts(hs: seq<Header>, entry: Addr, shown: seq<Addr>)
    requires AllAccepted(CARTRIDGE_BASE, hs) && exists h :: h in hs && !Fits(Zeros(CARTRIDGE_BASE), h)
    ensures var s, e := StaleCartridge(hs), InsertCartridge(hs, entry, shown);
      WellFormed(s.m) && Coherent(RECORDING, s) && PartsNext(RECORDING, ApplyCached(RECORDING, s, e), ApplyPlain(RECORDING, s.m, e))
  {
    var s := StaleCartridge(hs);
    var f, g := s.m.cartridge, Program(Zeros(CARTRIDGE_BASE), hs).f;
    ProgramCompletes(Zeros(CARTRIDGE_BASE), hs);
    ProgramForgets(Zeros(CARTRIDGE_BASE), f, hs);
    MarkedDiffers(f, g);
    StaleParts(s.(m := s.m.(cartridge := g)), WordAt(f, 0), WordAt(g, 0));
  }

  /** The empty payload at the very end. */
  lemma EmptyHeaderParts()
    ensures var hs := [Header(FIRMWARE_BASE + FLASH_SIZE, [])];
      var s, e := StaleFirmware(hs), ProgramFirmware(hs, []);
      PartsNext(RECORDING, ApplyCached(RECORDING, s, e), ApplyPlain(RECORDING, s.m, e))
  {
    var h := Header(FIRMWARE_BASE + FLASH_SIZE, []);
    assert h in [h] && !Fits(Zeros(FIRMWARE_BASE), h);
    ThrowParts([h], []);
  }

  /** Outside flash the cache can go stale at every word: an instruction that changes itself
      is executed twice. */
  lemma RamGoesStale(a: Addr)
    requires a % 4 == 0 && !InFlash(a)
    ensures var m := ZeroMachine(a);
      WellFormed(m) && PartsNext(RECORDING, ApplyCached(RECORDING, Cached(m, imap[]), Step), ApplyPlain(RECORDING, m, Step))
  {
    var t := ApplyCached(RECORDING, Cached(ZeroMachine(a), imap[]), Step);
    assert t.m.cpu == Idle(a, 1).(cycle := 1, retired := 1);
    StaleParts(t, 0, 1);
  }
}
