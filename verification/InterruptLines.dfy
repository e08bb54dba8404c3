/** The chipset's interrupt and timer registers, and the two lines of the processor's mip
    register they drive: section 3.1.9 and section 3.2.1 of the RISC-V Privileged
    Specification 20211203.  A register of
    interrupt sources is the set of its one bits; the three bits of mip that can be set are
    three booleans. */
module InterruptLines {
  import opened MachineWords

  const WORD64 := 0x1_0000_0000_0000_0000

  type Word64 = x: int | 0 <= x < WORD64

  /** The bits that are 1. */
  type Bits = s: set<nat> | forall b :: b in s ==> b < 32

  datatype Mip = Mip(external: bool, timer: bool, software: bool)

  datatype Lines = Lines(enable: Bits, pending: Bits, mtime: Word64, mtimecmp: Word64, mip: Mip)

  /** mtimecmp starts at -1. */
  const INITIAL := Lines({}, {}, 0, WORD64 - 1, Mip(false, false, false))

  /** CheckInterrupt: sets or clears the external or the timer bit of mip. */
  function Check(l: Lines, isTimer: bool): Lines {
    if isTimer then l.(mip := l.mip.(timer := l.mtime >= l.mtimecmp))
    else l.(mip := l.mip.(external := l.enable * l.pending != {}))
  }

  // ---- register stores --------------------------------------------------------

  function Low(x: Word64): Addr { x % WORD }
  function High(x: Word64): Addr { x / WORD }
  function Join(low: Addr, high: Addr): Word64 { high * WORD + low }

  /** Halves of a 64-bit register. */
  datatype Half = TimeLow | TimeHigh | CompareLow | CompareHigh

  /** (x & ~0xFFFFFFFF) | v */
  function WithLow(x: Word64, v: Addr): (r: Word64)
    ensures r == Join(v, High(x))
  {
    x - x % WORD + v
  }

  /** (x & 0xFFFFFFFF) | v << 32 */
  function WithHigh(x: Word64, v: Addr): (r: Word64)
    ensures r == Join(Low(x), v)
  {
    x % WORD + v * WORD
  }

  function EnableStored(l: Lines, v: Bits): Lines { Check(l.(enable := v), false) }

  /** Clears the bits written as 1. */
  function PendingStored(l: Lines, v: Bits): Lines { Check(l.(pending := l.pending - v), false) }

  function LoadHalf(l: Lines, h: Half): Addr {
    match h
    case TimeLow => Low(l.mtime)
    case TimeHigh => High(l.mtime)
    case CompareLow => Low(l.mtimecmp)
    case CompareHigh => High(l.mtimecmp)
  }

  function HalfStored(l: Lines, h: Half, v: Addr): Lines {
    match h
    case TimeLow => Check(l.(mtime := Join(v, High(l.mtime))), true)
    case TimeHigh => Check(l.(mtime := Join(Low(l.mtime), v)), true)
    case CompareLow => Check(l.(mtimecmp := Join(v, High(l.mtimecmp))), true)
    case CompareHigh => Check(l.(mtimecmp := Join(Low(l.mtimecmp), v)), true)
  }

  type Lane = n: nat | n < 4

  /** The bits of a byte lane. */
  predicate InLane(lane: Lane, b: nat) { 8 * lane <= b < 8 * lane + 8 }

  /** A byte store is a load, a merge and a 32-bit store. */
  function MergeBits(word: Bits, lane: Lane, v: Bits): Bits {
    (set b | b in word && !InLane(lane, b)) + v
  }

  function ToBytes(word: Addr): seq<Byte> {
    [word % 0x100, word / 0x100 % 0x100, word / 0x1_0000 % 0x100, word / 0x100_0000]
  }

  function FromBytes(b: seq<Byte>): Addr
    requires |b| == 4
  {
    var b0: int, b1: int, b2: int, b3: int := b[0], b[1], b[2], b[3];
    b0 + 0x100 * b1 + 0x1_0000 * b2 + 0x100_0000 * b3
  }

  function MergeByte(word: Addr, lane: Lane, v: Byte): Addr { FromBytes(ToBytes(word)[lane := v]) }

  lemma BytesRoundTrip(b: seq<Byte>)
    requires |b| == 4
    ensures ToBytes(FromBytes(b)) == b
  {
    var w := FromBytes(b);
    var b1: int, b2: int, b3: int := b[1], b[2], b[3];
    assert w / 0x100 == b1 + 0x100 * b2 + 0x1_0000 * b3;
    assert w / 0x1_0000 == b2 + 0x100 * b3;
  }

  /** The byte of a lane, in numbers: the lowest byte is lane 0. */
  lemma LaneValue(word: Addr, lane: Lane)
    ensures word == FromBytes(ToBytes(word))
    ensures ToBytes(word)[lane] ==
      if lane == 0 then word % 0x100 else if lane == 1 then word / 0x100 % 0x100 else if lane == 2 then word / 0x1_0000 % 0x100
      else word / 0x100_0000
  {
    assert word / 0x1_0000 == word / 0x100 / 0x100 && word / 0x100_0000 == word / 0x1_0000 / 0x100;
  }

  /** The merge changes one byte and keeps the other three. */
  lemma MergeByteKeeps(word: Addr, lane: Lane, v: Byte)
    ensures ToBytes(MergeByte(word, lane, v)) == ToBytes(word)[lane := v]
  {
    BytesRoundTrip(ToBytes(word)[lane := v]);
  }

  /** CPU Reset, then chipset Reset, register by register. */
  function ResetAll(l: Lines): Lines {
    var l1 := Check(l.(mip := Mip(false, false, false), enable := {}), false);
    var l2 := Check(l1.(pending := {}), false);
    var l3 := Check(l2.(mtime := 0), true);
    Check(l3.(mtimecmp := WORD64 - 1), true)
  }

  datatype Op =
    | SetEnable(v: Bits)
    | SetEnableByte(lane: Lane, v: Bits)
    | WritePending(v: Bits)
    | WritePendingByte(lane: Lane, v: Bits)
    | WriteHalf(h: Half, w: Addr)
    | WriteHalfByte(h: Half, lane: Lane, byte: Byte)
    | Event(source: Bits)          // SetInterruptPending
    | Acknowledge(source: Bits)    // ClearInterruptPending
    | Tick                         // IncrementTimer
    | Reset

  function Apply(l: Lines, op: Op): Lines {
    match op
    case SetEnable(v) => EnableStored(l, v)
    case SetEnableByte(lane, v) => EnableStored(l, MergeBits(l.enable, lane, v))
    case WritePending(v) => PendingStored(l, v)
    case WritePendingByte(lane, v) => PendingStored(l, MergeBits(l.pending, lane, v))
    case WriteHalf(h, w) => HalfStored(l, h, w)
    case WriteHalfByte(h, lane, byte) => HalfStored(l, h, MergeByte(LoadHalf(l, h), lane, byte))
    case Event(source) => Check(l.(pending := l.pending + source), false)
    case Acknowledge(source) => PendingStored(l, source)
    case Tick => Check(l.(mtime := if l.mtime + 1 == WORD64 then 0 else l.mtime + 1), true)
    case Reset => ResetAll(l)
  }

  /** The lines are exactly what the registers say. */
  predicate Mirrors(l: Lines) {
    && (l.mip.external <==> l.enable * l.pending != {})
    && (l.mip.timer <==> l.mtime >= l.mtimecmp)
    && !l.mip.software
  }

  lemma HalfMirrors(l: Lines, h: Half, v: Addr)
    requires Mirrors(l)
    ensures Mirrors(HalfStored(l, h, v))
  {
  }

  lemma OpMirrors(l: Lines, op: Op)
    requires Mirrors(l)
    ensures Mirrors(Apply(l, op))
  {
    match op
    case WriteHalf(h, w) => HalfMirrors(l, h, w);
    case WriteHalfByte(h, lane, byte) => HalfMirrors(l, h, MergeByte(LoadHalf(l, h), lane, byte));
    case _ =>
  }

  function Run(l: Lines, ops: seq<Op>): Lines
    decreases |ops|
  {
    if ops == [] then l else Apply(Run(l, ops[..|ops| - 1]), ops[|ops| - 1])
  }

  /** Between operations the lines mirror the registers, whatever the operations. */
  lemma {:induction false} RunMirrors(l: Lines, ops: seq<Op>)
    requires Mirrors(l)
    ensures Mirrors(Run(l, ops))
    decreases |ops|
  {
    if ops != [] {
      RunMirrors(l, ops[..|ops| - 1]);
      OpMirrors(Run(l, ops[..|ops| - 1]), ops[|ops| - 1]);
    }
  }

  /** In particular from the state a reset leaves. */
  lemma RunFromReset(ops: seq<Op>)
    ensures Mirrors(Run(INITIAL, ops))
  {
    RunMirrors(INITIAL, ops);
  }

  // ---- what is pending --------------------------------------------------------

  predicate Raises(op: Op, m: nat) { op.Event? && m in op.source }

  /** A byte store to the pending register reads the register, merges, and writes it back: the
      bits of the other three bytes are written as they are, so those that are set are
      cleared. */
  predicate Clears(op: Op, m: nat) {
    match op
    case WritePending(v) => m in v
    case WritePendingByte(lane, v) => !InLane(lane, m) || m in v
    case Acknowledge(source) => m in source
    case Reset => true
    case _ => false
  }

  lemma OpPending(l: Lines, op: Op, m: nat)
    ensures m in Apply(l, op).pending <==> Raises(op, m) || (m in l.pending && !Clears(op, m))
  {
  }

  predicate NotClearedFrom(ops: seq<Op>, i: nat, m: nat) {
    forall j :: i <= j < |ops| ==> !Clears(ops[j], m)
  }

  /** Raised by operation i and not cleared since. */
  predicate RaisedBy(ops: seq<Op>, i: nat, m: nat) {
    i < |ops| && Raises(ops[i], m) && NotClearedFrom(ops, i + 1, m)
  }

  lemma RaisedMore(ops: seq<Op>, n: nat, m: nat)
    requires |ops| == n + 1
    ensures (exists i: nat :: RaisedBy(ops, i, m)) <==>
      Raises(ops[n], m) || ((exists i: nat :: RaisedBy(ops[..n], i, m)) && !Clears(ops[n], m))
    ensures NotClearedFrom(ops, 0, m) <==> NotClearedFrom(ops[..n], 0, m) && !Clears(ops[n], m)
  {
    var before, op := ops[..n], ops[n];
    if Raises(op, m) { assert RaisedBy(ops, n, m); }
    if i: nat :| RaisedBy(before, i, m) && !Clears(op, m) {
      forall j | i + 1 <= j < |ops| ensures !Clears(ops[j], m) { if j < n { assert before[j] == ops[j]; } }
      assert RaisedBy(ops, i, m);
    }
    if i: nat :| RaisedBy(ops, i, m) && i < n {
      forall j | i + 1 <= j < n ensures !Clears(before[j], m) { assert before[j] == ops[j]; }
      assert RaisedBy(before, i, m) && !Clears(ops[n], m);
    }
  }

  /** A source is pending exactly when some event raised it and nothing has cleared it since. */
  lemma {:induction false} PendingHistory(l: Lines, ops: seq<Op>, m: nat)
    ensures m in Run(l, ops).pending <==>
      (exists i: nat :: RaisedBy(ops, i, m)) || (m in l.pending && NotClearedFrom(ops, 0, m))
    decreases |ops|
  {
    if ops != [] {
      var n := |ops| - 1;
      PendingHistory(l, ops[..n], m);
      OpPending(Run(l, ops[..n]), ops[n], m);
      RaisedMore(ops, n, m);
    }
  }

  // ---- what is enabled --------------------------------------------------------

  /** A store to the enable register decides about the sources in the word or byte stored. */
  predicate Enables(op: Op, m: nat) {
    match op
    case SetEnable(v) => m in v
    case SetEnableByte(_, v) => m in v
    case _ => false
  }

  predicate Disables(op: Op, m: nat) {
    match op
    case SetEnable(v) => m !in v
    case SetEnableByte(lane, v) => 8 * lane <= m < 8 * lane + 8 && m !in v
    case Reset => true
    case _ => false
  }

  lemma OpEnabled(l: Lines, op: Op, m: nat)
    ensures m in Apply(l, op).enable <==> Enables(op, m) || (m in l.enable && !Disables(op, m))
  {
  }

  predicate NotDisabledFrom(ops: seq<Op>, i: nat, m: nat) {
    forall j :: i <= j < |ops| ==> !Disables(ops[j], m)
  }

  predicate EnabledBy(ops: seq<Op>, i: nat, m: nat) {
    i < |ops| && Enables(ops[i], m) && NotDisabledFrom(ops, i + 1, m)
  }

  lemma EnabledMore(ops: seq<Op>, n: nat, m: nat)
    requires |ops| == n + 1
    ensures (exists i: nat :: EnabledBy(ops, i, m)) <==>
      Enables(ops[n], m) || ((exists i: nat :: EnabledBy(ops[..n], i, m)) && !Disables(ops[n], m))
    ensures NotDisabledFrom(ops, 0, m) <==> NotDisabledFrom(ops[..n], 0, m) && !Disables(ops[n], m)
  {
    var before, op := ops[..n], ops[n];
    if Enables(op, m) { assert EnabledBy(ops, n, m); }
    if i: nat :| EnabledBy(before, i, m) && !Disables(op, m) {
      forall j | i + 1 <= j < |ops| ensures !Disables(ops[j], m) { if j < n { assert before[j] == ops[j]; } }
      assert EnabledBy(ops, i, m);
    }
    if i: nat :| EnabledBy(ops, i, m) && i < n {
      forall j | i + 1 <= j < n ensures !Disables(before[j], m) { assert before[j] == ops[j]; }
      assert EnabledBy(before, i, m) && !Disables(ops[n], m);
    }
  }

  /** A source is enabled exactly when some store enabled it and none has disabled it since. */
  lemma {:induction false} EnableHistory(l: Lines, ops: seq<Op>, m: nat)
    ensures m in Run(l, ops).enable <==>
      (exists i: nat :: EnabledBy(ops, i, m)) || (m in l.enable && NotDisabledFrom(ops, 0, m))
    decreases |ops|
  {
    if ops != [] {
      var n := |ops| - 1;
      EnableHistory(l, ops[..n], m);
      OpEnabled(Run(l, ops[..n]), ops[n], m);
      EnabledMore(ops, n, m);
    }
  }

  // ---- time -------------------------------------------------------------------

  predicate KeepsTimer(op: Op) { !op.WriteHalf? && !op.WriteHalfByte? && !op.Reset? }

  function Ticks(ops: seq<Op>): nat
    decreases |ops|
  {
    if ops == [] then 0 else Ticks(ops[..|ops| - 1]) + if ops[|ops| - 1].Tick? then 1 else 0
  }

  /** Until the clock wraps, the timer line is up exactly from the tick on which mtime reaches
      mtimecmp, whatever else happens to the interrupt registers. */
  lemma {:induction false} TimerFires(l: Lines, ops: seq<Op>)
    requires Mirrors(l) && (forall op :: op in ops ==> KeepsTimer(op)) && l.mtime + Ticks(ops) < WORD64
    ensures var r := Run(l, ops);
      r.mtime == l.mtime + Ticks(ops) && r.mtimecmp == l.mtimecmp
      && (r.mip.timer <==> Ticks(ops) >= l.mtimecmp - l.mtime)
    decreases |ops|
  {
    RunMirrors(l, ops);
    if ops != [] {
      assert ops[|ops| - 1] in ops;
      TimerFires(l, ops[..|ops| - 1]);
    }
  }

  /** The clock wraps to zero. */
  lemma TickWraps(l: Lines)
    ensures Apply(l, Tick) == l.(mtime := (l.mtime + 1) % WORD64, mip := l.mip.(timer := (l.mtime + 1) % WORD64 >= l.mtimecmp))
  {
  }

  /** The two halves of a register can be written in either order. */
  lemma HalvesCommute(l: Lines, low: Addr, high: Addr)
    requires Mirrors(l)
    ensures HalfStored(HalfStored(l, TimeLow, low), TimeHigh, high) == HalfStored(HalfStored(l, TimeHigh, high), TimeLow, low)
    ensures HalfStored(HalfStored(l, TimeLow, low), TimeHigh, high).mtime == Join(low, high)
    ensures HalfStored(HalfStored(l, CompareLow, low), CompareHigh, high) == HalfStored(HalfStored(l, CompareHigh, high), CompareLow, low)
    ensures HalfStored(HalfStored(l, CompareLow, low), CompareHigh, high).mtimecmp == Join(low, high)
  {
    JoinHalves(low, high);
    JoinHalves(low, High(l.mtime));
    JoinHalves(Low(l.mtime), high);
    JoinHalves(low, High(l.mtimecmp));
    JoinHalves(Low(l.mtimecmp), high);
  }

  lemma JoinHalves(low: Addr, high: Addr)
    ensures Low(Join(low, high)) == low && High(Join(low, high)) == high
  {
  }

  /** A byte store to one half changes that byte, and leaves the other half and the other
      register. */
  lemma HalfByteStored(l: Lines, h: Half, lane: Lane, v: Byte)
    ensures var l1 := Apply(l, WriteHalfByte(h, lane, v));
      && (h.TimeLow? ==> l1.mtime / WORD == l.mtime / WORD && ToBytes(l1.mtime % WORD) == ToBytes(l.mtime % WORD)[lane := v])
      && (h.TimeHigh? ==> l1.mtime % WORD == l.mtime % WORD && ToBytes(l1.mtime / WORD) == ToBytes(l.mtime / WORD)[lane := v])
      && (h.CompareLow? ==> l1.mtimecmp / WORD == l.mtimecmp / WORD
                            && ToBytes(l1.mtimecmp % WORD) == ToBytes(l.mtimecmp % WORD)[lane := v])
      && (h.CompareHigh? ==> l1.mtimecmp % WORD == l.mtimecmp % WORD
                             && ToBytes(l1.mtimecmp / WORD) == ToBytes(l.mtimecmp / WORD)[lane := v])
      && (h.TimeLow? || h.TimeHigh? ==> l1.mtimecmp == l.mtimecmp)
      && (h.CompareLow? || h.CompareHigh? ==> l1.mtime == l.mtime)
  {
    MergeByteKeeps(LoadHalf(l, h), lane, v);
    var w := MergeByte(LoadHalf(l, h), lane, v);
    JoinHalves(w, High(l.mtime));
    JoinHalves(Low(l.mtime), w);
    JoinHalves(w, High(l.mtimecmp));
    JoinHalves(Low(l.mtimecmp), w);
  }

  /** The update order the specification recommends, low half to all ones first, never raises a
      timer interrupt that neither the old nor the new deadline calls for. */
  lemma QuietUpdate(l: Lines, low: Addr, high: Addr)
    requires Mirrors(l) && l.mtime < l.mtimecmp && l.mtime < Join(low, high)
    ensures var l1 := HalfStored(l, CompareLow, WORD - 1);
      var l2 := HalfStored(l1, CompareHigh, high);
      var l3 := HalfStored(l2, CompareLow, low);
      !l1.mip.timer && !l2.mip.timer && !l3.mip.timer && l3.mtimecmp == Join(low, high)
  {
    JoinHalves(WORD - 1, High(l.mtimecmp));
    JoinHalves(WORD - 1, high);
    assert l.mtimecmp == Join(Low(l.mtimecmp), High(l.mtimecmp));
  }

  /** Writing the low half directly can raise one. */
  lemma NoisyUpdate()
    ensures var l := Lines({}, {}, 5, 10, Mip(false, false, false));
      Mirrors(l) && l.mtime < Join(0, 1) && HalfStored(l, CompareLow, 0).mip.timer
  {
  }

  // ---- the object -------------------------------------------------------------

  class Chipset {
    var interruptEnable: Bits
    var interruptPending: Bits
    var machineTime: Word64
    var machineTimeCompare: Word64
    var mip: Mip

    ghost function View(): Lines
      reads this
    {
      Lines(interruptEnable, interruptPending, machineTime, machineTimeCompare, mip)
    }

    constructor ()
      ensures View() == INITIAL
    {
      interruptEnable, interruptPending, machineTime, machineTimeCompare := {}, {}, 0, WORD64 - 1;
      mip := Mip(false, false, false);
    }

    method CheckInterrupt(isTimer: bool)
      modifies this`mip
      ensures View() == Check(old(View()), isTimer)
    {
      if isTimer {
        if machineTime >= machineTimeCompare { mip := mip.(timer := true); } else { mip := mip.(timer := false); }
      } else {
        if interruptEnable * interruptPending != {} {
          mip := mip.(external := true);
        } else {
          mip := mip.(external := false);
        }
      }
    }

    method StoreEnable(v: Bits)
      requires Mirrors(View())
      modifies this
      ensures Mirrors(View()) && View() == EnableStored(old(View()), v)
    {
      interruptEnable := v;
      CheckInterrupt(false);
    }

    method StorePending(v: Bits)
      requires Mirrors(View())
      modifies this
      ensures Mirrors(View()) && View() == PendingStored(old(View()), v)
    {
      interruptPending := interruptPending - v;
      CheckInterrupt(false);
    }

    /** Only the register itself. */
    method SetHalf(h: Half, v: Addr)
      modifies this`machineTime, this`machineTimeCompare
      ensures HalfStored(old(View()), h, v) == Check(View(), true)
    {
      match h {
        case TimeLow => machineTime := WithLow(machineTime, v);
        case TimeHigh => machineTime := WithHigh(machineTime, v);
        case CompareLow => machineTimeCompare := WithLow(machineTimeCompare, v);
        case CompareHigh => machineTimeCompare := WithHigh(machineTimeCompare, v);
      }
    }

    method StoreHalf(h: Half, v: Addr)
      requires Mirrors(View())
      modifies this
      ensures Mirrors(View()) && View() == HalfStored(old(View()), h, v)
    {
      SetHalf(h, v);
      CheckInterrupt(true);
    }

    method SetInterruptPending(source: Bits)
      requires Mirrors(View())
      modifies this
      ensures Mirrors(View()) && View() == Apply(old(View()), Event(source))
    {
      interruptPending := interruptPending + source;
      CheckInterrupt(false);
    }

    method ClearInterruptPending(source: Bits)
      requires Mirrors(View())
      modifies this
      ensures Mirrors(View()) && View() == Apply(old(View()), Acknowledge(source))
    {
      StorePending(source);
    }

    method IncrementTimer()
      requires Mirrors(View())
      modifies this
      ensures Mirrors(View()) && View() == Apply(old(View()), Tick)
    {
      machineTime := if machineTime + 1 == WORD64 then 0 else machineTime + 1;
      CheckInterrupt(true);
    }

    /** The system reset: the processor's registers, then each chipset register in turn. */
    method ResetComponents()
      requires Mirrors(View())
      modifies this
      ensures Mirrors(View()) && View() == INITIAL == Apply(old(View()), Reset)
    {
      mip := Mip(false, false, false);
      interruptEnable := {};
      CheckInterrupt(false);
      interruptPending := {};
      CheckInterrupt(false);
      machineTime := 0;
      CheckInterrupt(true);
      machineTimeCompare := WORD64 - 1;
      CheckInterrupt(true);
    }
  }
}
