/** The console's own objects: two flash memories that are written in place, a CPU behind the
    block cache, and the events that rewrite the flash.  Every method is proved against the
    functions of CachedExecution. */
module Console {
  import opened InstructionCache
  import opened CachedExecution
  import opened MachineWords

  /** `s` with `src` written over it from index i on. */
  function Pasted(s: seq<Byte>, i: nat, src: seq<Byte>): seq<Byte>
    requires i + |src| <= |s|
  {
    s[..i] + src + s[i + |src|..]
  }

  lemma PastedMore(s: seq<Byte>, i: nat, src: seq<Byte>, k: nat)
    requires i + |src| <= |s| && k < |src|
    ensures Pasted(s, i, src[..k + 1]) == Pasted(s, i, src[..k])[i + k := src[k]]
  {
  }

  class FlashMemoryDevice {
    const base: Addr
    const data: array<Byte>
    var writeEnabled: bool

    ghost function View(): Flash
      reads this, data
    {
      Flash(base, data[..], writeEnabled)
    }

    constructor (base: Addr, size: nat)
      ensures this.base == base && data.Length == size && !writeEnabled && fresh(data)
    {
      this.base := base;
      data := new Byte[size](_ => 0);
      writeEnabled := false;
    }

    /** The index of an address, or nothing where the source throws. */
    method AccessAddress(addr: Addr, size: nat) returns (index: Option<nat>)
      ensures index == if InRange(View(), addr, size) then Some(Wrap(addr - base)) else None
    {
      var i := Wrap(addr - base);
      if i < data.Length && i + size <= data.Length {
        index := Some(i);
      } else {
        index := None;
      }
    }

    method EraseAll()
      modifies data
      ensures View() == CachedExecution.EraseAll(old(View()))
    {
      if writeEnabled {
        forall i | 0 <= i < data.Length { data[i] := 0; }
      }
    }

    /** Copies byte by byte; `ok` is false where the source throws. */
    method StoreData(addr: Addr, src: seq<Byte>) returns (ok: bool)
      modifies data
      ensures var r := CachedExecution.StoreData(old(View()), addr, src); View() == r.f && ok == r.Stored?
    {
      if !writeEnabled { return true; }
      var at := AccessAddress(addr, |src|);
      if at.None? { return false; }
      var k := 0;
      ghost var before := data[..];
      while k < |src|
        invariant k <= |src| && data[..] == Pasted(before, at.value, src[..k])
      {
        data[at.value + k] := src[k];
        PastedMore(before, at.value, src, k);
        k := k + 1;
      }
      assert src[..k] == src;
      ok := true;
    }

    method LoadUINT32(addr: Addr) returns (word: Option<int>)
      ensures word == LoadFlash(View(), addr)
    {
      var at := AccessAddress(addr, 4);
      if at.None? { return None; }
      var i := at.value;
      var b0: int, b1: int, b2: int, b3: int := data[i], data[i + 1], data[i + 2], data[i + 3];
      word := Some(b0 + 0x100 * b1 + 0x1_0000 * b2 + 0x100_0000 * b3);
    }
  }

  class RiscvConsole<!I(!new), !R> {
    const world: World<I, R>
    const cache: BlockCache<I>
    const firmware: FlashMemoryDevice
    const cartridge: FlashMemoryDevice
    var cpu: Cpu<R>

    ghost predicate Valid()
      reads this, cache, cache.hashedSubBlocks.Values
    {
      && cache.Valid()
      && firmware != cartridge && firmware.data != cartridge.data
      && firmware.base == FIRMWARE_BASE && firmware.data.Length == FLASH_SIZE
      && cartridge.base == CARTRIDGE_BASE && cartridge.data.Length == FLASH_SIZE
    }

    ghost function MachineView(): Machine<R>
      reads this, firmware, firmware.data, cartridge, cartridge.data
    {
      Machine(cpu, firmware.View(), cartridge.View())
    }

    ghost function CacheView(): Cache<I>
      requires Valid()
      reads this, cache, cache.hashedSubBlocks.Values
    {
      cache.Words()
    }

    ghost function View(): Cached<I, R>
      requires Valid()
      reads this, cache, cache.hashedSubBlocks.Values, firmware, firmware.data, cartridge, cartridge.data
    {
      Cached(MachineView(), CacheView())
    }

    constructor (world: World<I, R>, cpu: Cpu<R>)
      ensures Valid() && WellFormed(View().m) && View().m.cpu == cpu && View().c == imap[] && this.world == world
    {
      this.world, this.cpu := world, cpu;
      cache := new BlockCache<I>();
      firmware := new FlashMemoryDevice(FIRMWARE_BASE, FLASH_SIZE);
      cartridge := new FlashMemoryDevice(CARTRIDGE_BASE, FLASH_SIZE);
    }

    method StoreByte(addr: Addr, v: Byte)
      requires Valid()
      modifies firmware.data, cartridge.data
      ensures Valid() && CacheView() == old(CacheView())
      ensures MachineView() == CachedExecution.StoreByte(old(MachineView()), addr, v)
    {
      if InFirmware(addr) {
        var _ := firmware.StoreData(addr, [v]);
      } else if InCartridge(addr) {
        var _ := cartridge.StoreData(addr, [v]);
      }
    }

    method StoreBytes(stores: seq<(Addr, Byte)>)
      requires Valid()
      modifies firmware.data, cartridge.data
      ensures Valid() && CacheView() == old(CacheView())
      ensures MachineView() == StoreAll(old(MachineView()), stores)
    {
      var i := 0;
      while i < |stores|
        invariant i <= |stores| && Valid() && CacheView() == old(CacheView())
        invariant StoreAll(MachineView(), stores[i..]) == StoreAll(old(MachineView()), stores)
      {
        StoreByte(stores[i].0, stores[i].1);
        i := i + 1;
      }
    }

    /** The machine as memory, the instruction and the devices see it. */
    method Snapshot() returns (m: Machine<R>)
      ensures m == MachineView()
    {
      m := Machine(cpu, Flash(firmware.base, firmware.data[..], firmware.writeEnabled),
                   Flash(cartridge.base, cartridge.data[..], cartridge.writeEnabled));
    }

    method LoadWord(addr: Addr) returns (word: Option<int>)
      requires Valid()
      ensures word == CachedExecution.LoadWord(world, MachineView(), addr)
    {
      if InFirmware(addr) {
        word := firmware.LoadUINT32(addr);
      } else if InCartridge(addr) {
        word := cartridge.LoadUINT32(addr);
      } else {
        var m := Snapshot();
        word := world.load(m, addr);
      }
    }

    method DecodeInstruction(addr: Addr) returns (d: Decoded<I>)
      requires Valid()
      ensures d == DecodeAt(world, MachineView(), addr)
    {
      var raw := LoadWord(addr);
      if raw.None? { return Unreadable; }
      var inst := world.decode(addr, raw.value);
      d := if inst.None? then Illegal else Found(inst.value);
    }

    /** The decoded instruction at an address, from the cache or from memory. */
    method Lookup(addr: Addr) returns (d: Decoded<I>)
      requires Valid()
      modifies cache, cache.hashedSubBlocks.Values
      ensures Valid() && MachineView() == old(MachineView())
      ensures forall a :: a in old(cache.hashedSubBlocks) ==> a in cache.hashedSubBlocks && cache.hashedSubBlocks[a] == old(cache.hashedSubBlocks)[a]
      ensures forall a :: a in cache.hashedSubBlocks && a !in old(cache.hashedSubBlocks) ==> fresh(cache.hashedSubBlocks[a])
      ensures d == Fetched(world, old(View()), addr) && CacheView() == Filled(old(CacheView()), addr, d)
    {
      var inst := cache.Fetch(addr);
      if inst.Some? { return Found(inst.value); }
      d := Fill(addr);
    }

    /** The part of Lookup after a miss. */
    method Fill(addr: Addr) returns (d: Decoded<I>)
      requires Valid() && addr / 4 !in CacheView()
      modifies cache, cache.hashedSubBlocks.Values
      ensures Valid() && MachineView() == old(MachineView())
      ensures forall a :: a in old(cache.hashedSubBlocks) ==> a in cache.hashedSubBlocks && cache.hashedSubBlocks[a] == old(cache.hashedSubBlocks)[a]
      ensures forall a :: a in cache.hashedSubBlocks && a !in old(cache.hashedSubBlocks) ==> fresh(cache.hashedSubBlocks[a])
      ensures d == DecodeAt(world, MachineView(), addr) && CacheView() == Filled(old(CacheView()), addr, d)
    {
      d := DecodeInstruction(addr);
      if d.Found? { cache.Insert(addr, d.inst); }
    }

    method SetCpu(c: Cpu<R>)
      requires Valid()
      modifies this`cpu
      ensures Valid() && MachineView() == old(MachineView()).(cpu := c) && CacheView() == old(CacheView())
    {
      cpu := c;
    }

    method InvokeTrap(cause: Addr, interrupt: bool)
      requires Valid() && cause < 16
      modifies this`cpu
      ensures Valid() && CacheView() == old(CacheView())
      ensures MachineView() == old(MachineView()).(cpu := CachedExecution.InvokeTrap(old(cpu), cause, interrupt))
    {
      var c := cpu.(mcause := cause + (if interrupt then 0x8000_0000 else 0), mstatus := TrapStatus(cpu.mstatus));
      SetCpu(c.(mepc := cpu.pc, pc := TrapTarget(cpu.mtvec, cause)));
    }

    method CheckInterrupts()
      requires Valid()
      modifies this`cpu
      ensures Valid() && CacheView() == old(CacheView())
      ensures MachineView() == old(MachineView()).(cpu := CachedExecution.CheckInterrupts(old(cpu)))
    {
      if Interrupted(cpu) { InvokeTrap(InterruptCause(cpu.mip & cpu.mie), true); }
    }

    /** Counts the instruction, then takes an interrupt if one is due. */
    method Retire()
      requires Valid()
      modifies this`cpu
      ensures Valid() && CacheView() == old(CacheView())
      ensures MachineView() == old(MachineView()).(cpu := CachedExecution.Retire(old(cpu)))
    {
      SetCpu(cpu.(cycle := cpu.cycle + 1, retired := cpu.retired + 1));
      CheckInterrupts();
    }

    /** Takes over the new CPU state, then makes the stores. */
    method Commit(e: Effect<R>)
      requires Valid()
      modifies this`cpu, firmware.data, cartridge.data
      ensures Valid() && CacheView() == old(CacheView())
      ensures MachineView() == StoreAll(old(MachineView()).(cpu := e.cpu), e.stores) && cpu == e.cpu
    {
      cpu := e.cpu;
      StoreBytes(e.stores);
    }

    method ExecuteInstruction() returns (retired: bool)
      requires Valid()
      modifies this`cpu, cache, cache.hashedSubBlocks.Values, firmware.data, cartridge.data
      ensures Valid() && View() == StepCached(world, old(View()))
    {
      var pc := cpu.pc;
      if pc % 4 != 0 {
        InvokeTrap(0, false);
        return false;
      }
      var found := Lookup(pc);
      match found
      case Unreadable =>
        InvokeTrap(1, false);
        return false;
      case Illegal =>
        InvokeTrap(2, false);
        return false;
      case Found(inst) => retired := Perform(inst);
    }

    /** What follows the attempt: counting the instruction, or a trap. */
    method Conclude(outcome: Outcome, inst: I) returns (retired: bool)
      requires Valid()
      modifies this`cpu
      ensures Valid() && CacheView() == old(CacheView())
      ensures MachineView() == old(MachineView()).(cpu := match outcome
        case Executed => CachedExecution.Retire(old(cpu))
        case Refused => old(cpu)
        case Faulted => CachedExecution.InvokeTrap(old(cpu), if world.storeBit(inst) then 7 else 5, false))
      ensures retired == outcome.Executed?
    {
      match outcome
      case Executed =>
        Retire();
        return true;
      case Refused => return false;
      case Faulted =>
        InvokeTrap(if world.storeBit(inst) then 7 else 5, false);
        return false;
    }

    /** Executes a decoded instruction. */
    method Perform(inst: I) returns (retired: bool)
      requires Valid()
      modifies this`cpu, firmware.data, cartridge.data
      ensures Valid() && CacheView() == old(CacheView())
      ensures MachineView() == CachedExecution.Perform(world, old(MachineView()), inst)
    {
      var m := Snapshot();
      var e := world.execute(inst, m);
      Commit(e);
      retired := Conclude(e.outcome, inst);
    }

    method RunDevices()
      requires Valid()
      modifies this`cpu, firmware.data, cartridge.data
      ensures Valid() && CacheView() == old(CacheView()) && MachineView() == DeviceStep(world, old(MachineView()))
    {
      var m := Snapshot();
      Commit(world.devices(m));
    }

    /** One system step: an instruction, then the devices. */
    method SystemStep()
      requires Valid()
      modifies this`cpu, cache, cache.hashedSubBlocks.Values, firmware.data, cartridge.data
      ensures Valid() && View() == ApplyCached(world, old(View()), Step)
    {
      var _ := ExecuteInstruction();
      RunDevices();
    }

    /** Erases a flash memory and writes the payloads; stops where the source throws. */
    method Rewrite(flash: FlashMemoryDevice, hs: seq<Header>) returns (ok: bool)
      modifies flash, flash.data
      ensures var r := Program(old(flash.View()), hs); flash.View() == r.f && ok == r.Stored?
    {
      flash.writeEnabled := true;
      flash.EraseAll();
      ghost var f := flash.View();
      var i := 0;
      while i < |hs|
        invariant i <= |hs| && StoreHeaders(flash.View(), hs[i..]) == StoreHeaders(f, hs)
      {
        var stored := flash.StoreData(Wrap(hs[i].paddr), hs[i].payload);
        if !stored { return false; }
        i := i + 1;
      }
      flash.writeEnabled := false;
      ok := true;
    }

    method ProgramFlash(flash: FlashMemoryDevice, hs: seq<Header>) returns (ok: bool)
      requires Valid() && (flash == firmware || flash == cartridge)
      modifies flash, flash.data
      ensures Valid() && CacheView() == old(CacheView())
      ensures var m := old(MachineView());
        var r := Program(if flash == firmware then m.firmware else m.cartridge, hs);
        ok == r.Stored? && MachineView() == if flash == firmware then m.(firmware := r.f) else m.(cartridge := r.f)
    {
      ok := Rewrite(flash, hs);
    }

    method FlushCache(base: Addr)
      requires Valid()
      modifies cache.hashedSubBlocks.Values
      ensures Valid() && MachineView() == old(MachineView()) && CacheView() == Flush(old(CacheView()), base, FLASH_SIZE)
    {
      cache.FlushRange(base, FLASH_SIZE);
    }

    method CheckHeaders(base: Addr, hs: seq<Header>) returns (ok: bool)
      ensures ok == AllAccepted(base, hs)
    {
      var i := 0;
      while i < |hs|
        invariant i <= |hs| && forall h :: h in hs[..i] ==> Accepted(base, h)
      {
        if !Accepted(base, hs[i]) { return false; }
        i := i + 1;
      }
      assert hs[..i] == hs;
      ok := true;
    }

    /** Lists the shown addresses through the cache; `ok` is false where the source throws. */
    method ConstructStrings(shown: seq<Addr>) returns (ok: bool)
      requires Valid()
      modifies cache, cache.hashedSubBlocks.Values
      ensures Valid() && Show(world, old(View()), shown) == Replied(View(), if ok then Done else Threw)
    {
      var i := 0;
      while i < |shown|
        invariant i <= |shown| && Valid() && MachineView() == old(MachineView())
        invariant forall a :: a in cache.hashedSubBlocks ==>
          cache.hashedSubBlocks[a] in old(cache.hashedSubBlocks.Values) || fresh(cache.hashedSubBlocks[a])
        invariant Show(world, View(), shown[i..]) == Show(world, old(View()), shown)
      {
        var d := Lookup(shown[i]);
        if d.Unreadable? { return false; }
        i := i + 1;
      }
      ok := true;
    }

    /** The part ProgramFirmware and InsertCartridge share: check, rewrite, flush. */
    method Load(flash: FlashMemoryDevice, base: Addr, hs: seq<Header>) returns (r: Reply)
      requires Valid()
      requires (flash == firmware && base == FIRMWARE_BASE) || (flash == cartridge && base == CARTRIDGE_BASE)
      modifies cache.hashedSubBlocks.Values, flash, flash.data
      ensures Valid()
      ensures var p := Program(old(flash.View()), hs);
        r == if !AllAccepted(base, hs) then Rejected else if p.Stored? then Done else Threw
      ensures CacheView() == if r.Done? then Flush(old(CacheView()), base, FLASH_SIZE) else old(CacheView())
      ensures var m := old(MachineView());
        MachineView() ==
        if r.Rejected? then m
        else if flash == firmware then m.(firmware := Program(m.firmware, hs).f)
        else m.(cartridge := Program(m.cartridge, hs).f)
    {
      var accepted := CheckHeaders(base, hs);
      if !accepted { return Rejected; }
      var ok := ProgramFlash(flash, hs);
      if !ok { return Threw; }
      FlushCache(base);
      r := Done;
    }

    /** What follows once the flash is written: new registers, then the listing. */
    method Restart(c: Cpu<R>, shown: seq<Addr>) returns (r: Reply)
      requires Valid()
      modifies this`cpu, cache, cache.hashedSubBlocks.Values
      ensures Valid() && Show(world, Cached(old(MachineView()).(cpu := c), old(CacheView())), shown) == Replied(View(), r)
    {
      SetCpu(c);
      var ok := ConstructStrings(shown);
      r := if ok then Done else Threw;
    }

    method ProgramFirmware(hs: seq<Header>, shown: seq<Addr>) returns (r: Reply)
      requires Valid()
      modifies this`cpu, cache, cache.hashedSubBlocks.Values, firmware, firmware.data
      ensures Valid() && ProgramFirmwareCached(world, old(View()), hs, shown) == Replied(View(), r)
    {
      r := Load(firmware, FIRMWARE_BASE, hs);
      if r.Done? { r := Restart(world.reset(cpu), shown); }
    }

    method InsertCartridge(hs: seq<Header>, entry: Addr, shown: seq<Addr>) returns (r: Reply)
      requires Valid()
      modifies this`cpu, cache, cache.hashedSubBlocks.Values, cartridge, cartridge.data
      ensures Valid() && InsertCartridgeCached(world, old(View()), hs, entry, shown) == Replied(View(), r)
    {
      r := Load(cartridge, CARTRIDGE_BASE, hs);
      if r.Done? { r := Restart(world.inserted(cpu, entry), shown); }
    }

    method EraseCartridge()
      requires Valid()
      modifies cache.hashedSubBlocks.Values, cartridge, cartridge.data
      ensures Valid() && CacheView() == Flush(old(CacheView()), CARTRIDGE_BASE, FLASH_SIZE)
      ensures MachineView() == old(MachineView()).(cartridge := Program(old(cartridge.View()), []).f)
    {
      var _ := ProgramFlash(cartridge, []);
      FlushCache(CARTRIDGE_BASE);
    }

    method RemoveCartridge()
      requires Valid()
      modifies this`cpu, cache.hashedSubBlocks.Values, cartridge, cartridge.data
      ensures Valid() && View() == ApplyCached(world, old(View()), Event.RemoveCartridge)
    {
      EraseCartridge();
      SetCpu(world.removed(cpu));
    }

    method ResetComponents()
      requires Valid()
      modifies this`cpu
      ensures Valid() && View() == ApplyCached(world, old(View()), ResetAll)
    {
      SetCpu(world.reset(cpu));
    }
  }
}
