/** The memory controller: a path-compressed radix trie over 32-bit addresses, four bits a
    level. */
module MemoryController {
  import opened MachineWords
  import opened AddressDigits

  /** A device, or a controller that decodes `bits` low address bits. */
  datatype Device =
    | Leaf(id: nat, base: Addr, size: nat)
    | Controller(base: Addr, bits: nat, subs: seq<Option<Device>>)

  predicate InRegion(c: Device, a: Addr)
    requires c.Controller? && IsBits(c.bits)
  {
    Same(a, c.base, c.bits)
  }

  /** At least two slots are taken. */
  predicate Crowded(c: Device) {
    c.Controller? ==> exists i, j :: 0 <= i < j < |c.subs| && c.subs[i].Some? && c.subs[j].Some?
  }

  /** What every attached controller keeps: its base is aligned to its bits, a multiple of
      four; each slot holds a smaller device that starts there; nested controllers are
      crowded. */
  predicate Shape(d: Device) {
    if d.Leaf? then true
    else
      && Framed(d)
      && forall i :: 0 <= i < 16 && d.subs[i].Some? ==>
        Shape(d.subs[i].value) && SlotOk(d, i, d.subs[i].value) && Crowded(d.subs[i].value)
  }

  predicate Framed(c: Device) {
    c.Controller? && IsBits(c.bits) && c.bits >= 4 && |c.subs| == 16 && Aligned(c.base, c.bits)
  }

  predicate SlotOk(c: Device, i: int, s: Device)
    requires c.Controller? && IsBits(c.bits) && c.bits >= 4
  {
    InRegion(c, s.base) && Digit(s.base, c.bits) == i && (s.Controller? ==> s.bits < c.bits)
  }

  function Leaves(d: Device): set<Device> {
    if d.Leaf? then {d}
    else set i, l | 0 <= i < |d.subs| && d.subs[i].Some? && l in Leaves(d.subs[i].value) :: l
  }

  const EMPTY: seq<Option<Device>> :=
    [None, None, None, None, None, None, None, None, None, None, None, None, None, None, None, None]

  /** CMemoryControllerDevice(bits) at base 0. */
  function NewController(bits: nat): Device { Controller(0, bits, EMPTY) }

  predicate OutOfRange(c: Device, a: Addr)
    requires c.Controller? && IsBits(c.bits)
  {
    c.bits < 32 && Pow(c.bits) <= Wrap(a - c.base)
  }

  /** Enough to find a slot for an address. */
  predicate Decodes(c: Device) { c.Controller? && IsBits(c.bits) && c.bits >= 4 && |c.subs| == 16 }

  /** (Offset >> DShiftBits) & DeviceIndexMask */
  function Index(c: Device, a: Addr): (i: int)
    requires c.Controller? && IsBits(c.bits) && c.bits >= 4
    ensures 0 <= i < 16
  {
    Digit(Wrap(a - c.base), c.bits)
  }

  lemma IndexIsDigit(c: Device, a: Addr)
    requires c.Controller? && Shape(c)
    ensures OutOfRange(c, a) <==> !InRegion(c, a)
    ensures InRegion(c, a) ==> Index(c, a) == Digit(a, c.bits)
  {
    OffsetRange(c.base, c.bits, a);
    if InRegion(c, a) { OffsetDigit(c.base, c.bits, a, c.bits); }
  }

  /** The largest n' <= n at whose digit x and y differ, or 0. */
  function SplitBits(x: Addr, y: Addr, n: nat): (m: nat)
    requires IsBits(n)
    ensures IsBits(m) && m <= n
  {
    if n < 4 then 0
    else if Digit(x, n) != Digit(y, n) then n
    else SplitBits(x, y, n - 4)
  }

  /** The mask loop of AttachDevice. */
  method FindSplit(offset: Addr, otherOffset: Addr, shiftBits: nat) returns (newBits: nat)
    requires IsBits(shiftBits)
    ensures newBits == SplitBits(offset, otherOffset, shiftBits)
  {
    newBits := shiftBits;
    ghost var goal := SplitBits(offset, otherOffset, shiftBits);
    while newBits != 0
      invariant IsBits(newBits) && SplitBits(offset, otherOffset, newBits) == goal
    {
      var digit, other := Digit(offset, newBits), Digit(otherOffset, newBits);
      if digit != other { break; }
      newBits := newBits - 4;
    }
  }

  /** BaseAddress(addr) */
  function Rebase(d: Device, addr: Addr): Device {
    match d
    case Leaf(id, _, size) => Leaf(id, addr, size)
    case Controller(_, bits, subs) => Controller(addr, bits, subs)
  }

  /** The part of AttachDevice for an empty slot. */
  function Place(c: Device, device: Device, addr: Addr): Option<Device>
    requires Decodes(c)
  {
    if OutOfRange(c, addr) || c.subs[Index(c, addr)].Some? then None
    else Some(c.(subs := c.subs[Index(c, addr) := Some(Rebase(device, addr))]))
  }

  /** The new controller that takes both the device and what was in its slot. */
  function Split(n: nat, sub: Device, device: Device, addr: Addr): Option<Device>
    requires IsBits(n) && n >= 4
  {
    match Place(Controller(Truncate(addr, n), n, EMPTY), device, addr)
    case None => None
    case Some(c) => Place(c, sub, sub.base)
  }

  /** NewBits after the mask loop. */
  function SplitAt(c: Device, sub: Device, addr: Addr): (n: nat)
    requires c.Controller? && IsBits(c.bits) && c.bits >= 4
    ensures IsBits(n) && n <= c.bits - 4
  {
    SplitBits(Wrap(addr - c.base), Wrap(sub.base - c.base), c.bits - 4)
  }

  /** What replaces the device in the slot; None if both have the same base. */
  function SplitSlot(c: Device, sub: Device, device: Device, addr: Addr): Option<Device>
    requires c.Controller? && IsBits(c.bits) && c.bits >= 4
  {
    var n := SplitAt(c, sub, addr);
    if n == 0 then None else Split(n, sub, device, addr)
  }

  /** AttachDevice; None where it returns false. */
  function Attach(c: Device, device: Device, addr: Addr): Option<Device>
    requires Shape(c)
    decreases c
  {
    if c.Leaf? || OutOfRange(c, addr) then None
    else
      var i := Index(c, addr);
      if c.subs[i].None? then Place(c, device, addr)
      else
        var sub := c.subs[i].value;
        match Attach(sub, device, addr)
        case Some(s) => Some(c.(subs := c.subs[i := Some(s)]))
        case None =>
          match SplitSlot(c, sub, device, addr)
          case None => None
          case Some(s) => Some(c.(subs := c.subs[i := Some(s)]))
  }

  /** The device the slots lead to. */
  function Find(c: Device, a: Addr): Option<Device>
    decreases c
  {
    if c.Leaf? then Some(c)
    else if !Decodes(c) then None
    else match c.subs[Index(c, a)]
      case None => None
      case Some(s) => Find(s, a)
  }

  /** A load or store of n bytes: the device it reaches, or None where a controller throws. */
  function Access(c: Device, a: Addr, n: nat): Option<Device>
    decreases c
  {
    if c.Leaf? then Some(c)
    else if !Decodes(c) then None
    else if OutOfRange(c, a) || (c.bits < 32 && Wrap(Wrap(a - c.base) + n) >= Pow(c.bits)) then None
    else match c.subs[Index(c, a)]
      case None => None
      case Some(s) => Access(s, a, n)
  }

  // ---- shape ------------------------------------------------------------------

  lemma LeavesBelow(c: Device, i: int, l: Device)
    requires c.Controller? && 0 <= i < |c.subs| && c.subs[i].Some? && l in Leaves(c.subs[i].value)
    ensures l in Leaves(c)
  {
  }

  lemma {:induction false} LeafBase(c: Device, l: Device)
    requires Shape(c) && l in Leaves(c)
    ensures l.Leaf? && Shape(l)
    ensures c.Controller? ==> InRegion(c, l.base)
    decreases c
  {
    if c.Controller? {
      var i :| 0 <= i < |c.subs| && c.subs[i].Some? && l in Leaves(c.subs[i].value);
      LeafSlot(c, i, l);
    }
  }

  /** The leaves below a slot start in it. */
  lemma {:induction false} LeafSlot(c: Device, i: int, l: Device)
    requires Shape(c) && c.Controller? && 0 <= i < 16 && c.subs[i].Some? && l in Leaves(c.subs[i].value)
    ensures l.Leaf? && Shape(l) && InRegion(c, l.base) && Digit(l.base, c.bits) == i
    decreases c, 0
  {
    var s := c.subs[i].value;
    LeafBase(s, l);
    assert SlotOk(c, i, s);
    if s.Controller? {
      SameBelow(l.base, s.base, s.bits, c.bits);
      assert InRegion(c, s.base);
    }
  }

  lemma SlotOfLeaf(c: Device, l: Device)
    requires Shape(c) && c.Controller? && l in Leaves(c)
    ensures l.Leaf? && InRegion(c, l.base)
    ensures var s := c.subs[Digit(l.base, c.bits)]; s.Some? && l in Leaves(s.value)
  {
    var i :| 0 <= i < |c.subs| && c.subs[i].Some? && l in Leaves(c.subs[i].value);
    LeafSlot(c, i, l);
  }

  /** Every attached device is where its base leads. */
  lemma {:induction false} FindLeaf(c: Device, l: Device)
    requires Shape(c) && l in Leaves(c)
    ensures Find(c, l.base) == Some(l)
    decreases c
  {
    if c.Controller? {
      SlotOfLeaf(c, l);
      IndexIsDigit(c, l.base);
      FindLeaf(c.subs[Digit(l.base, c.bits)].value, l);
    }
  }

  lemma {:induction false} HasLeaf(d: Device) returns (l: Device)
    requires Shape(d) && Crowded(d)
    ensures l in Leaves(d)
    decreases d
  {
    if d.Leaf? { return d; }
    var i, j :| 0 <= i < j < |d.subs| && d.subs[i].Some? && d.subs[j].Some?;
    l := HasLeaf(d.subs[i].value);
    LeavesBelow(d, i, l);
  }

  // ---- attaching --------------------------------------------------------------

  lemma {:induction false} SplitBitsFinds(x: Addr, y: Addr, n: nat)
    requires IsBits(n) && Same(x, y, n)
    ensures var m := SplitBits(x, y, n);
      if m == 0 then x == y else Same(x, y, m) && Digit(x, m) != Digit(y, m)
    decreases n
  {
    if n > 0 && Digit(x, n) == Digit(y, n) {
      SameStep(x, y, n);
      SplitBitsFinds(x, y, n - 4);
    }
  }

  lemma {:induction false} SplitOffsets(base: Addr, b: nat, x: Addr, y: Addr, n: nat)
    requires IsBits(b) && Aligned(base, b) && Same(x, base, b) && Same(y, base, b) && IsBits(n) && n <= b
    ensures SplitBits(Wrap(x - base), Wrap(y - base), n) == SplitBits(x, y, n)
    decreases n
  {
    if n > 0 {
      OffsetDigit(base, b, x, n);
      OffsetDigit(base, b, y, n);
      SplitOffsets(base, b, x, y, n - 4);
    }
  }

  function Put(c: Device, i: int, s: Device): Device
    requires c.Controller? && 0 <= i < |c.subs|
  {
    c.(subs := c.subs[i := Some(s)])
  }

  lemma PutShape(c: Device, i: int, s: Device)
    requires Shape(c) && c.Controller? && 0 <= i < 16
    requires Shape(s) && SlotOk(c, i, s) && Crowded(s)
    ensures Shape(Put(c, i, s))
  {
    var d := Put(c, i, s);
    forall j | 0 <= j < 16 && d.subs[j].Some?
      ensures Shape(d.subs[j].value) && SlotOk(d, j, d.subs[j].value) && Crowded(d.subs[j].value)
    {
      if j != i { assert d.subs[j] == c.subs[j] && SlotOk(c, j, c.subs[j].value); }
    }
  }

  lemma PutLeaves(c: Device, i: int, s: Device, extra: set<Device>)
    requires c.Controller? && 0 <= i < |c.subs|
    requires Leaves(s) == extra + if c.subs[i].Some? then Leaves(c.subs[i].value) else {}
    ensures Leaves(Put(c, i, s)) == Leaves(c) + extra
  {
    var d := Put(c, i, s);
    forall l ensures l in Leaves(d) <==> l in Leaves(c) || l in extra {
      if l in Leaves(c) {
        var j :| 0 <= j < |c.subs| && c.subs[j].Some? && l in Leaves(c.subs[j].value);
        assert l in Leaves(d.subs[j].value);
      }
      if l in extra { assert l in Leaves(d.subs[i].value); }
      if l in Leaves(d) {
        var j :| 0 <= j < |d.subs| && d.subs[j].Some? && l in Leaves(d.subs[j].value);
        if j != i { assert l in Leaves(c.subs[j].value); }
      }
    }
  }

  lemma PutCrowded(c: Device, i: int, s: Device)
    requires c.Controller? && 0 <= i < |c.subs| && Crowded(c)
    ensures Crowded(Put(c, i, s))
  {
    var d := Put(c, i, s);
    var j, k :| 0 <= j < k < |c.subs| && c.subs[j].Some? && c.subs[k].Some?;
    assert d.subs[j].Some? && d.subs[k].Some?;
  }

  /** The first half of AttachDevice, on a controller with the slot free. */
  lemma PlaceWorks(c: Device, device: Device, addr: Addr)
    requires Shape(c) && c.Controller? && InRegion(c, addr) && c.subs[Digit(addr, c.bits)].None?
    requires var d := Rebase(device, addr); Shape(d) && Crowded(d) && (d.Controller? ==> d.bits < c.bits)
    ensures Place(c, device, addr) == Some(Put(c, Digit(addr, c.bits), Rebase(device, addr)))
    ensures Shape(Place(c, device, addr).value)
    ensures Leaves(Place(c, device, addr).value) == Leaves(c) + Leaves(Rebase(device, addr))
  {
    IndexIsDigit(c, addr);
    PutShape(c, Digit(addr, c.bits), Rebase(device, addr));
    PutLeaves(c, Digit(addr, c.bits), Rebase(device, addr), Leaves(Rebase(device, addr)));
  }

  lemma FreshShape(n: nat, base: Addr)
    requires IsBits(n) && n >= 4 && Aligned(base, n)
    ensures Shape(Controller(base, n, EMPTY)) && Leaves(Controller(base, n, EMPTY)) == {}
  {
  }

  /** x and y part at the top of their low n bits. */
  predicate Parts(n: nat, x: Addr, y: Addr) {
    IsBits(n) && n >= 4 && Same(x, y, n) && Digit(x, n) != Digit(y, n)
  }

  predicate Parted(n: nat, sub: Device, addr: Addr) {
    Parts(n, addr, sub.base) && (sub.Controller? ==> sub.bits < n)
  }

  lemma PlaceFree(c: Device, device: Device, addr: Addr)
    requires Decodes(c) && !OutOfRange(c, addr) && c.subs[Index(c, addr)].None?
    ensures Place(c, device, addr) == Some(Put(c, Index(c, addr), Rebase(device, addr)))
  {
  }

  lemma FreshIndex(base: Addr, n: nat, a: Addr)
    requires IsBits(n) && n >= 4 && Aligned(base, n) && Same(a, base, n)
    ensures var c := Controller(base, n, EMPTY); !OutOfRange(c, a) && Index(c, a) == Digit(a, n)
  {
    FreshShape(n, base);
    IndexIsDigit(Controller(base, n, EMPTY), a);
  }

  /** Splitting there finds room for both, whatever they are. */
  lemma SplitSteps(n: nat, sub: Device, device: Device, addr: Addr)
    requires Parts(n, addr, sub.base)
    ensures var c := Controller(Truncate(addr, n), n, EMPTY); var c1 := Put(c, Digit(addr, n), Rebase(device, addr));
      Place(c, device, addr) == Some(c1) && Place(c1, sub, sub.base) == Some(Put(c1, Digit(sub.base, n), Rebase(sub, sub.base)))
  {
    var base := Truncate(addr, n);
    TruncateAligned(addr, n);
    FreshIndex(base, n, addr);
    FreshIndex(base, n, sub.base);
    var c := Controller(base, n, EMPTY);
    PlaceFree(c, device, addr);
    PlaceFree(Put(c, Digit(addr, n), Rebase(device, addr)), sub, sub.base);
  }

  /** A new controller at the first differing digit takes both devices. */
  lemma SplitWorks(n: nat, sub: Device, device: Device, addr: Addr) returns (r: Device)
    requires IsBits(n) && Parted(n, sub, addr) && Shape(sub) && Crowded(sub) && device.Leaf?
    ensures Split(n, sub, device, addr) == Some(r) && Shape(r) && Crowded(r)
    ensures r.Controller? && r.bits == n && Same(r.base, addr, n) && Leaves(r) == Leaves(sub) + {Rebase(device, addr)}
  {
    SplitSteps(n, sub, device, addr);
    TruncateAligned(addr, n);
    var c0 := Controller(Truncate(addr, n), n, EMPTY);
    FreshShape(n, c0.base);
    var i, j := Digit(addr, n), Digit(sub.base, n);
    var d := Rebase(device, addr);
    var c1 := Put(c0, i, d);
    PutShape(c0, i, d);
    PutLeaves(c0, i, d, {d});
    assert c1.subs[j].None? && Rebase(sub, sub.base) == sub && SlotOk(c1, j, sub);
    PutShape(c1, j, sub);
    PutLeaves(c1, j, sub, Leaves(sub));
    TwoSlots(c1, i, j, sub);
    r := Put(c1, j, sub);
  }

  lemma TwoSlots(c: Device, i: int, j: int, s: Device)
    requires c.Controller? && 0 <= i < |c.subs| && 0 <= j < |c.subs| && i != j && c.subs[i].Some?
    ensures Crowded(Put(c, j, s))
  {
    var d := Put(c, j, s);
    assert d.subs[if i < j then i else j].Some? && d.subs[if i < j then j else i].Some?;
  }

  /** Parting from a controller's base outside its region happens above it. */
  lemma PartsAbove(n: nat, sub: Device, addr: Addr)
    requires Parts(n, addr, sub.base) && Shape(sub) && (sub.Controller? ==> !InRegion(sub, addr))
    ensures Parted(n, sub, addr)
  {
    if sub.Controller? && n <= sub.bits { SameUp(addr, sub.base, n, sub.bits); }
  }

  /** Attaching at a new base succeeds, keeps the shape and adds exactly the
      device. */
  lemma {:induction false} AttachSucceeds(c: Device, device: Device, addr: Addr)
    requires Shape(c) && c.Controller? && InRegion(c, addr) && device.Leaf?
    requires forall l :: l in Leaves(c) ==> l.base != addr
    ensures var r := Attach(c, device, addr);
      r.Some? && Shape(r.value) && r.value.Controller? && r.value.base == c.base && r.value.bits == c.bits
      && Leaves(r.value) == Leaves(c) + {Rebase(device, addr)} && (Crowded(c) ==> Crowded(r.value))
    decreases c
  {
    var i := Digit(addr, c.bits);
    IndexIsDigit(c, addr);
    if c.subs[i].None? {
      PlaceWorks(c, device, addr);
      if Crowded(c) { PutCrowded(c, i, Rebase(device, addr)); }
    } else {
      var sub := c.subs[i].value;
      forall l | l in Leaves(sub) ensures l.base != addr { LeavesBelow(c, i, l); }
      AttachInSlot(c, i, sub, device, addr);
      var s := AttachedSlot(c, i, sub, device, addr);
      PutShape(c, i, s);
      PutLeaves(c, i, s, {Rebase(device, addr)});
      if Crowded(c) { PutCrowded(c, i, s); }
    }
  }

  /** What takes the place of `sub`. */
  function AttachedSlot(c: Device, i: int, sub: Device, device: Device, addr: Addr): Device
    requires Shape(c) && c.Controller? && 0 <= i < 16 && c.subs[i] == Some(sub)
  {
    match Attach(sub, device, addr)
    case Some(s) => s
    case None =>
      match SplitSlot(c, sub, device, addr)
      case None => sub
      case Some(s) => s
  }

  lemma {:induction false} AttachInSlot(c: Device, i: int, sub: Device, device: Device, addr: Addr)
    requires Shape(c) && c.Controller? && InRegion(c, addr) && device.Leaf?
    requires i == Digit(addr, c.bits) && c.subs[i] == Some(sub)
    requires forall l :: l in Leaves(sub) ==> l.base != addr
    ensures var s := AttachedSlot(c, i, sub, device, addr);
      Attach(c, device, addr) == Some(Put(c, i, s))
      && Shape(s) && SlotOk(c, i, s) && Crowded(s) && Leaves(s) == Leaves(sub) + {Rebase(device, addr)}
    decreases c, 0
  {
    IndexIsDigit(c, addr);
    assert SlotOk(c, i, sub);
    if sub.Controller? && InRegion(sub, addr) {
      AttachSucceeds(sub, device, addr);
    } else {
      NoRoomInSlot(sub, device, addr);
      var _ := SplitInSlot(c, i, sub, device, addr);
    }
  }

  /** The mask loop stops where the bases part. */
  lemma SplitPlace(c: Device, i: int, sub: Device, addr: Addr)
    requires Framed(c) && InRegion(c, addr) && i == Digit(addr, c.bits) && Shape(sub) && SlotOk(c, i, sub)
    ensures var n := SplitAt(c, sub, addr); (n == 0 <==> addr == sub.base) && (n != 0 ==> Parts(n, addr, sub.base))
  {
    SplitOffsets(c.base, c.bits, addr, sub.base, c.bits - 4);
    SameStep(addr, sub.base, c.bits);
    SplitBitsFinds(addr, sub.base, c.bits - 4);
  }

  /** Attaching below a taken slot: in the device there, or else by splitting, unless both
      devices have the same base. */
  lemma AttachBelow(c: Device, i: int, sub: Device, device: Device, addr: Addr)
    requires Shape(c) && c.Controller? && InRegion(c, addr)
    requires i == Digit(addr, c.bits) && c.subs[i] == Some(sub)
    ensures IsBits(c.bits - 4) && Shape(sub) && Crowded(sub) && (sub.Controller? ==> sub.bits < c.bits)
    ensures var s := Attach(sub, device, addr);
      s.Some? ==> Attach(c, device, addr) == Some(Put(c, i, s.value))
    ensures var n := SplitAt(c, sub, addr);
      && (n == 0 <==> addr == sub.base) && (n != 0 ==> Parts(n, addr, sub.base))
      && (Attach(sub, device, addr).None? ==>
            if n == 0 then Attach(c, device, addr).None?
            else Split(n, sub, device, addr).Some?
                 && Attach(c, device, addr) == Some(Put(c, i, Split(n, sub, device, addr).value)))
  {
    IndexIsDigit(c, addr);
    assert SlotOk(c, i, sub);
    SplitPlace(c, i, sub, addr);
    var n := SplitAt(c, sub, addr);
    if n != 0 { SplitSteps(n, sub, device, addr); }
  }

  /** The new device has taken the base over, in a trie that is no longer in shape. */
  predicate Overtaken(r: Device, device: Device, addr: Addr) {
    !Shape(r) && (device.Leaf? ==> Find(r, addr) == Some(Rebase(device, addr)))
  }

  /** Attaching at a base already in use is refused only if the slot's own device has it.
      Otherwise the new device takes the base over. */
  lemma {:induction false} DuplicateBase(c: Device, device: Device, addr: Addr, l: Device)
    requires Shape(c) && c.Controller? && l in Leaves(c) && l.base == addr
    ensures c.subs[Digit(addr, c.bits)].Some?
    ensures Attach(c, device, addr).None? <==> c.subs[Digit(addr, c.bits)].value.base == addr
    ensures var r := Attach(c, device, addr); r.Some? ==> Overtaken(r.value, device, addr)
    decreases c
  {
    SlotOfLeaf(c, l);
    IndexIsDigit(c, addr);
    var i := Digit(addr, c.bits);
    var sub := c.subs[i].value;
    AttachBelow(c, i, sub, device, addr);
    if sub.Controller? {
      DuplicateBase(sub, device, addr, l);
      if addr == sub.base { SameStart(sub, l); }
      if Attach(sub, device, addr).Some? {
        PutOvertaken(c, i, Attach(sub, device, addr).value, device, addr);
      } else if addr != sub.base {
        LeafBase(sub, l);
        MisplacedSplit(SplitAt(c, sub, addr), sub, device, addr);
        PutOvertaken(c, i, Split(SplitAt(c, sub, addr), sub, device, addr).value, device, addr);
      }
    }
  }

  lemma PutOvertaken(c: Device, i: int, s: Device, device: Device, addr: Addr)
    requires Decodes(c) && i == Index(c, addr) && Overtaken(s, device, addr)
    ensures Overtaken(Put(c, i, s), device, addr)
  {
    assert Put(c, i, s).subs[i] == Some(s);
  }

  /** A device that starts where its controller does lies in slots that start there too. */
  lemma SameStart(c: Device, l: Device)
    requires Shape(c) && c.Controller? && l in Leaves(c) && l.base == c.base
    ensures var s := c.subs[Digit(l.base, c.bits)]; s.Some? && s.value.base == c.base
  {
    SlotOfLeaf(c, l);
    var s := c.subs[Digit(l.base, c.bits)].value;
    assert Shape(s) && SlotOk(c, Digit(l.base, c.bits), s);
    LeafBase(s, l);
    if s.Controller? { AlignedDown(l.base, c.bits, s.bits); }
  }

  /** The split below a controller that already covers the base puts it below a smaller one. */
  lemma MisplacedSplit(n: nat, sub: Device, device: Device, addr: Addr)
    requires Parts(n, addr, sub.base) && Shape(sub) && sub.Controller? && InRegion(sub, addr)
    ensures var r := Split(n, sub, device, addr); r.Some? && Overtaken(r.value, device, addr)
  {
    SplitSteps(n, sub, device, addr);
    TruncateAligned(addr, n);
    FreshIndex(Truncate(addr, n), n, addr);
    if n > sub.bits { SameBelow(addr, sub.base, sub.bits, n); }
    if device.Leaf? { SplitFinds(n, sub, device, addr, Split(n, sub, device, addr).value); }
    Misplaced(Split(n, sub, device, addr).value, Digit(sub.base, n), sub);
  }

  lemma Misplaced(r: Device, j: int, sub: Device)
    requires Decodes(r) && 0 <= j < 16 && r.subs[j] == Some(sub) && sub.Controller? && sub.bits >= r.bits
    ensures !Shape(r)
  {
    assert !SlotOk(r, j, sub);
  }

  lemma SplitFinds(n: nat, sub: Device, device: Device, addr: Addr, r: Device)
    requires Parts(n, addr, sub.base) && device.Leaf? && Index(Controller(Truncate(addr, n), n, EMPTY), addr) == Digit(addr, n)
    requires r == Put(Put(Controller(Truncate(addr, n), n, EMPTY), Digit(addr, n), Rebase(device, addr)), Digit(sub.base, n), sub)
    ensures Find(r, addr) == Some(Rebase(device, addr))
  {
    assert Decodes(r) && Index(r, addr) == Digit(addr, n);
  }

  /** So distinct bases are exactly what attaching needs. */
  lemma AttachExactly(c: Device, device: Device, addr: Addr)
    requires Shape(c) && c.Controller? && InRegion(c, addr) && device.Leaf?
    ensures (forall l :: l in Leaves(c) ==> l.base != addr)
       <==> Attach(c, device, addr).Some? && Shape(Attach(c, device, addr).value)
  {
    if l :| l in Leaves(c) && l.base == addr {
      DuplicateBase(c, device, addr, l);
    } else {
      AttachSucceeds(c, device, addr);
    }
  }

  lemma NoRoomInSlot(sub: Device, device: Device, addr: Addr)
    requires Shape(sub) && (sub.Controller? ==> !InRegion(sub, addr))
    requires forall l :: l in Leaves(sub) ==> l.base != addr
    ensures Attach(sub, device, addr).None? && addr != sub.base
  {
    if sub.Controller? { IndexIsDigit(sub, addr); } else { assert sub in Leaves(sub); }
  }

  lemma SlotAbove(c: Device, i: int, s: Device, addr: Addr)
    requires c.Controller? && IsBits(c.bits) && c.bits >= 4 && InRegion(c, addr) && i == Digit(addr, c.bits)
    requires s.Controller? && IsBits(s.bits) && s.bits < c.bits && Same(s.base, addr, s.bits)
    ensures SlotOk(c, i, s)
  {
    SameBelow(s.base, addr, s.bits, c.bits);
  }

  lemma SplitInSlot(c: Device, i: int, sub: Device, device: Device, addr: Addr) returns (r: Device)
    requires Framed(c) && InRegion(c, addr) && device.Leaf?
    requires i == Digit(addr, c.bits) && Shape(sub) && SlotOk(c, i, sub) && Crowded(sub)
    requires addr != sub.base && (sub.Controller? ==> !InRegion(sub, addr))
    ensures SplitSlot(c, sub, device, addr) == Some(r)
    ensures Shape(r) && SlotOk(c, i, r) && Crowded(r) && Leaves(r) == Leaves(sub) + {Rebase(device, addr)}
  {
    SplitPlace(c, i, sub, addr);
    PartsAbove(SplitAt(c, sub, addr), sub, addr);
    r := SplitWorks(SplitAt(c, sub, addr), sub, device, addr);
    SlotAbove(c, i, r, addr);
  }

  // ---- building a memory map --------------------------------------------------

  predicate Whole(c: Device) { c.Controller? && c.bits == 32 && Shape(c) }

  ghost predicate DistinctBases(ds: seq<Device>) {
    && (forall d :: d in ds ==> d.Leaf?)
    && (forall i, j :: 0 <= i < j < |ds| ==> ds[i].base != ds[j].base)
  }

  ghost predicate NewBases(c: Device, ds: seq<Device>) {
    forall l, d :: l in Leaves(c) && d in ds ==> l.base != d.base
  }

  /** Attaches every device in turn. */
  ghost function AttachAll(c: Device, ds: seq<Device>): (r: Option<Device>)
    requires Whole(c) && DistinctBases(ds) && NewBases(c, ds)
    ensures r.Some? && Whole(r.value) && Leaves(r.value) == Leaves(c) + set d | d in ds
    decreases |ds|
  {
    if ds == [] then Some(c)
    else
      AttachFirst(c, ds);
      assert ds == [ds[0]] + ds[1..];
      AttachAll(Attach(c, ds[0], ds[0].base).value, ds[1..])
  }

  lemma AttachFirst(c: Device, ds: seq<Device>)
    requires Whole(c) && DistinctBases(ds) && NewBases(c, ds) && ds != []
    ensures var r := Attach(c, ds[0], ds[0].base);
      r.Some? && Whole(r.value) && Leaves(r.value) == Leaves(c) + {ds[0]}
      && DistinctBases(ds[1..]) && NewBases(r.value, ds[1..])
  {
    WholeRange(ds[0].base);
    WholeRange(c.base);
    AttachSucceeds(c, ds[0], ds[0].base);
  }

  lemma EmptyMap()
    ensures Whole(NewController(32)) && Leaves(NewController(32)) == {}
  {
    FreshShape(32, 0);
  }

  /** The memory map: every device attached in turn to an empty controller of 32 bits. */
  ghost function MemoryMap(ds: seq<Device>): (r: Option<Device>)
    requires DistinctBases(ds)
    ensures r.Some? && Whole(r.value) && Leaves(r.value) == set d | d in ds
  {
    EmptyMap();
    AttachAll(NewController(32), ds)
  }

  /** Routing: devices at distinct bases are all attached, and afterwards each
      base leads to its own device. */
  lemma Routing(ds: seq<Device>)
    requires DistinctBases(ds)
    ensures var r := MemoryMap(ds);
      r.Some? && Whole(r.value) && Leaves(r.value) == (set d | d in ds)
      && forall d :: d in ds ==> Find(r.value, d.base) == Some(d)
  {
    var c := MemoryMap(ds).value;
    forall d | d in ds ensures Find(c, d.base) == Some(d) { FindLeaf(c, d); }
  }

  /** Attaching one more device re-routes none of the earlier ones. */
  lemma NeverReroutes(c: Device, device: Device, addr: Addr, l: Device)
    requires Whole(c) && device.Leaf? && l in Leaves(c)
    requires forall k :: k in Leaves(c) ==> k.base != addr
    ensures var r := Attach(c, device, addr);
      r.Some? && Shape(r.value) && Find(c, l.base) == Some(l) == Find(r.value, l.base)
  {
    WholeRange(addr);
    WholeRange(c.base);
    AttachSucceeds(c, device, addr);
    FindLeaf(c, l);
    FindLeaf(Attach(c, device, addr).value, l);
  }

  // ---- accesses inside a device -----------------------------------------------

  /** A power-of-16 size, and a base aligned to it. */
  ghost predicate Regular(l: Device, k: nat) {
    l.Leaf? && IsBits(k) && k <= 28 && l.size == Pow(k) && Aligned(l.base, k)
  }

  ghost predicate AllRegular(c: Device) { forall l :: l in Leaves(c) ==> exists k: nat :: Regular(l, k) }

  predicate Covers(l: Device, a: int)
    requires l.Leaf?
  {
    l.base <= a < l.base + l.size
  }

  ghost predicate Disjoint(c: Device) {
    forall l, m, a :: l in Leaves(c) && m in Leaves(c) && l.Leaf? && m.Leaf? && l != m ==> !(Covers(l, a) && Covers(m, a))
  }

  lemma RegularCovers(l: Device, k: nat, a: Addr)
    requires Regular(l, k)
    ensures Covers(l, a) <==> Same(a, l.base, k)
  {
    OffsetRange(l.base, k, a);
    RegionEnds(l.base, k);
  }

  lemma NotInside(c: Device, l: Device, m: Device)
    requires AllRegular(c) && Disjoint(c) && l in Leaves(c) && m in Leaves(c) && l != m && l.Leaf? && m.Leaf?
    ensures !Covers(l, m.base)
  {
    var j: nat :| Regular(m, j);
    RegularCovers(m, j, m.base);
  }

  /** A device in a crowded controller is no larger than one of its slots. */
  lemma FitsSlot(c: Device, l: Device, k: nat)
    requires Shape(c) && c.Controller? && (c.bits == 32 || Crowded(c)) && l in Leaves(c)
    requires AllRegular(c) && Disjoint(c) && Regular(l, k)
    ensures k < c.bits
  {
    if k >= c.bits {
      TwoLeaves(c, l);
      var m :| m in Leaves(c) && m != l;
      LeafBase(c, l);
      LeafBase(c, m);
      SameUp(m.base, l.base, c.bits, k);
      RegularCovers(l, k, m.base);
      NotInside(c, l, m);
    }
  }

  /** An address inside a device takes the same slot as the device. */
  lemma SlotOfAddress(c: Device, l: Device, a: Addr)
    requires Shape(c) && c.Controller? && (c.bits == 32 || Crowded(c)) && l in Leaves(c)
    requires AllRegular(c) && Disjoint(c) && l.Leaf? && Covers(l, a)
    ensures InRegion(c, a) && Digit(a, c.bits) == Digit(l.base, c.bits)
  {
    var k: nat :| Regular(l, k);
    FitsSlot(c, l, k);
    RegularCovers(l, k, a);
    LeafBase(c, l);
    SameBelow(a, l.base, k, c.bits);
  }

  lemma TwoLeaves(c: Device, l: Device)
    requires Shape(c) && c.Controller? && Crowded(c)
    ensures exists m :: m in Leaves(c) && m != l
  {
    var i, j :| 0 <= i < j < |c.subs| && c.subs[i].Some? && c.subs[j].Some?;
    var p := HasLeaf(c.subs[i].value);
    var q := HasLeaf(c.subs[j].value);
    LeafSlot(c, i, p);
    LeafSlot(c, j, q);
    LeavesBelow(c, i, p);
    LeavesBelow(c, j, q);
  }

  function Controllers(d: Device): set<Device> {
    if d.Leaf? then {}
    else {d} + set i, k | 0 <= i < |d.subs| && d.subs[i].Some? && k in Controllers(d.subs[i].value) :: k
  }

  /** The access ends at the last byte of a nested controller's region. */
  predicate Stops(k: Device, a: Addr, n: nat) {
    k.Controller? && k.bits < 32 && IsBits(k.bits) && InRegion(k, a) && k.base + Pow(k.bits) == a + n
  }

  ghost predicate Stopped(d: Device, a: Addr, n: nat) { exists k :: k in Controllers(d) && Stops(k, a, n) }

  lemma {:induction false} ControllerRegion(d: Device, k: Device, a: Addr)
    requires Shape(d) && k in Controllers(d)
    ensures Framed(k)
    ensures InRegion(k, a) ==> InRegion(d, a)
    decreases d
  {
    if k != d {
      var i :| 0 <= i < |d.subs| && d.subs[i].Some? && k in Controllers(d.subs[i].value);
      ControllerSlot(d, i, k, a);
    }
  }

  lemma {:induction false} ControllerSlot(d: Device, i: int, k: Device, a: Addr)
    requires Shape(d) && d.Controller? && 0 <= i < 16 && d.subs[i].Some? && k in Controllers(d.subs[i].value)
    ensures Framed(k)
    ensures InRegion(k, a) ==> InRegion(d, a) && Digit(a, d.bits) == i
    decreases d, 0
  {
    var s := d.subs[i].value;
    ControllerRegion(s, k, a);
    assert SlotOk(d, i, s);
    if InRegion(k, a) { SameBelow(a, s.base, s.bits, d.bits); }
  }

  /** Only the slot on the way can stop the access further down. */
  lemma StoppedBelow(c: Device, a: Addr, n: nat)
    requires Shape(c) && c.Controller? && InRegion(c, a)
    ensures var sub := c.subs[Digit(a, c.bits)];
      Stopped(c, a, n) <==> Stops(c, a, n) || (sub.Some? && Stopped(sub.value, a, n))
  {
    var i := Digit(a, c.bits);
    if c.subs[i].Some? && Stopped(c.subs[i].value, a, n) {
      var k :| k in Controllers(c.subs[i].value) && Stops(k, a, n);
      assert k in Controllers(c);
    }
    if Stops(c, a, n) { assert c in Controllers(c); }
    if Stopped(c, a, n) && !Stops(c, a, n) {
      var k :| k in Controllers(c) && Stops(k, a, n);
      var j :| 0 <= j < |c.subs| && c.subs[j].Some? && k in Controllers(c.subs[j].value);
      ControllerSlot(c, j, k, a);
    }
  }

  /** The device ends inside the region. */
  lemma EndsInside(c: Device, l: Device, a: Addr, n: nat)
    requires Shape(c) && c.Controller? && (c.bits == 32 || Crowded(c)) && l in Leaves(c)
    requires AllRegular(c) && Disjoint(c) && l.Leaf? && Covers(l, a) && a + n <= l.base + l.size
    ensures c.base <= a && a + n <= c.base + Pow(c.bits)
  {
    var k: nat :| Regular(l, k);
    RegionEnds(l.base, k);
    SlotOfAddress(c, l, a);
    OffsetRange(c.base, c.bits, a);
    if n > 0 {
      SlotOfAddress(c, l, a + n - 1);
      OffsetRange(c.base, c.bits, a + n - 1);
    }
  }

  /** So the range check fires only at the region's last byte. */
  lemma RangeCheck(c: Device, l: Device, a: Addr, n: nat)
    requires Shape(c) && c.Controller? && (c.bits == 32 || Crowded(c)) && l in Leaves(c)
    requires AllRegular(c) && Disjoint(c) && l.Leaf? && Covers(l, a) && a + n <= l.base + l.size
    ensures !OutOfRange(c, a)
    ensures c.bits < 32 && Wrap(Wrap(a - c.base) + n) >= Pow(c.bits) <==> Stops(c, a, n)
  {
    SlotOfAddress(c, l, a);
    OffsetRange(c.base, c.bits, a);
    EndsInside(c, l, a, n);
    if c.bits < 32 {
      SmallRegion(c.bits);
      assert Wrap(a - c.base) == a - c.base;
    }
  }

  lemma SmallRegion(n: nat)
    requires IsBits(n) && n < 32
    ensures Pow(n) < WORD
  {
    PowWord();
    ShlTwice(1, n, 32 - n);
    ShlDifference(Pow(32 - n), 1, n);
    ShlTwice(1, 32 - n, n);
    ShlSign(1, 28 - n);
  }

  lemma AccessLevel(c: Device, a: Addr, n: nat)
    requires Decodes(c) && !OutOfRange(c, a) && c.subs[Index(c, a)].Some?
    ensures Access(c, a, n) ==
      if c.bits < 32 && Wrap(Wrap(a - c.base) + n) >= Pow(c.bits) then None else Access(c.subs[Index(c, a)].value, a, n)
  {
  }

  /** One level of an access inside a device. */
  lemma AccessStep(c: Device, l: Device, a: Addr, n: nat)
    requires Shape(c) && c.Controller? && (c.bits == 32 || Crowded(c)) && l in Leaves(c)
    requires AllRegular(c) && Disjoint(c) && l.Leaf? && Covers(l, a) && a + n <= l.base + l.size
    ensures var s := c.subs[Digit(l.base, c.bits)];
      s.Some? && l in Leaves(s.value)
      && InRegion(c, a) && Digit(a, c.bits) == Digit(l.base, c.bits)
      && Access(c, a, n) == if Stops(c, a, n) then None else Access(s.value, a, n)
  {
    SlotOfLeaf(c, l);
    SlotOfAddress(c, l, a);
    IndexIsDigit(c, a);
    RangeCheck(c, l, a, n);
    AccessLevel(c, a, n);
  }

  /** Every access inside a device reaches it, unless it ends at the last byte of a nested
      controller's region: those, and only those, throw. */
  lemma {:induction false} AccessInDevice(c: Device, l: Device, a: Addr, n: nat)
    requires Shape(c) && (c.Controller? ==> c.bits == 32 || Crowded(c)) && l in Leaves(c)
    requires AllRegular(c) && Disjoint(c) && l.Leaf? && Covers(l, a) && a + n <= l.base + l.size
    ensures Access(c, a, n) == if Stopped(c, a, n) then None else Some(l)
    decreases c
  {
    if c.Controller? {
      AccessStep(c, l, a, n);
      StoppedBelow(c, a, n);
      var j := Digit(l.base, c.bits);
      SubTree(c, j);
      AccessInDevice(c.subs[j].value, l, a, n);
    }
  }

  lemma SubTree(c: Device, j: int)
    requires c.Controller? && 0 <= j < |c.subs| && c.subs[j].Some? && AllRegular(c) && Disjoint(c)
    ensures AllRegular(c.subs[j].value) && Disjoint(c.subs[j].value)
  {
    var s := c.subs[j].value;
    forall l | l in Leaves(s) ensures l in Leaves(c) { LeavesBelow(c, j, l); }
  }

  /** The same for a whole memory map. */
  lemma AccessInMap(ds: seq<Device>, l: Device, a: Addr, n: nat)
    requires DistinctBases(ds) && l in ds && (forall d :: d in ds ==> exists k: nat :: Regular(d, k))
    requires forall d, e, b :: d in ds && e in ds && d.Leaf? && e.Leaf? && d != e ==> !(Covers(d, b) && Covers(e, b))
    requires l.Leaf? && Covers(l, a) && a + n <= l.base + l.size
    ensures MemoryMap(ds).Some?
    ensures var c := MemoryMap(ds).value; Whole(c) && Access(c, a, n) == if Stopped(c, a, n) then None else Some(l)
  {
    AccessInDevice(MemoryMap(ds).value, l, a, n);
  }

  /** Devices with different top digits need no nested controller: every access in a 256 MB
      slot reaches its device. */
  lemma TopDigits(ds: seq<Device>, l: Device, a: Addr, n: nat)
    requires DistinctBases(ds) && l in ds && Digit(a, 32) == Digit(l.base, 32)
    requires forall i, j :: 0 <= i < j < |ds| ==> Digit(ds[i].base, 32) != Digit(ds[j].base, 32)
    ensures MemoryMap(ds).Some?
    ensures var c := MemoryMap(ds).value; Whole(c) && Access(c, a, n) == Some(l)
  {
    var c := MemoryMap(ds).value;
    WholeRange(a);
    WholeRange(c.base);
    IndexIsDigit(c, a);
    SlotOfLeaf(c, l);
    AloneInSlot(c, ds, l);
  }

  lemma OtherDigit(ds: seq<Device>, l: Device, m: Device)
    requires l in ds && m in ds && l != m
    requires forall i, j :: 0 <= i < j < |ds| ==> Digit(ds[i].base, 32) != Digit(ds[j].base, 32)
    ensures Digit(l.base, 32) != Digit(m.base, 32)
  {
    var x :| 0 <= x < |ds| && ds[x] == l;
    var y :| 0 <= y < |ds| && ds[y] == m;
    assert x < y || y < x;
  }

  lemma AloneInSlot(c: Device, ds: seq<Device>, l: Device)
    requires Whole(c) && Leaves(c) == (set d | d in ds) && l in ds
    requires forall i, j :: 0 <= i < j < |ds| ==> Digit(ds[i].base, 32) != Digit(ds[j].base, 32)
    requires l.Leaf? && c.subs[Digit(l.base, 32)].Some? && l in Leaves(c.subs[Digit(l.base, 32)].value)
    ensures c.subs[Digit(l.base, 32)] == Some(l)
  {
    var i := Digit(l.base, 32);
    var s := c.subs[i].value;
    if s.Controller? {
      TwoLeaves(s, l);
      var m :| m in Leaves(s) && m != l;
      LeafSlot(c, i, m);
      LeavesBelow(c, i, m);
      OtherDigit(ds, l, m);
    }
  }

  function ConsoleDevices(ram: nat, firmware: nat, cartridge: nat, video: nat, registers: nat): seq<Device> {
    [Leaf(0, 0x7000_0000, ram), Leaf(1, 0, firmware), Leaf(2, 0x2000_0000, cartridge), Leaf(3, 0x5000_0000, video),
     Leaf(4, 0x4000_0000, registers)]
  }

  lemma TopDigit(a: Addr)
    ensures Digit(a, 32) == a / 0x1000_0000
  {
    ShrBytes(a);
    assert Shr(a, 28) == Shr(a, 24) / 16;
  }

  lemma ShrBytes(a: Addr)
    ensures Shr(a, 8) == a / 0x100 && Shr(a, 16) == a / 0x1_0000 && Shr(a, 24) == a / 0x100_0000
  {
    assert Shr(a, 4) == a / 0x10;
    assert Shr(a, 8) == a / 0x100;
    assert Shr(a, 12) == a / 0x1000;
    assert Shr(a, 16) == a / 0x1_0000;
    assert Shr(a, 20) == a / 0x10_0000;
  }

  ghost predicate IsConsole(ds: seq<Device>) {
    exists x0, x1, x2, x3, x4 :: ds == ConsoleDevices(x0, x1, x2, x3, x4)
  }

  predicate Slotted(d: Device, top: nat) { d.Leaf? && d.base == 0x1000_0000 * top }

  lemma ConsoleBases(ds: seq<Device>)
    requires IsConsole(ds)
    ensures |ds| == 5 && Slotted(ds[0], 7) && Slotted(ds[1], 0) && Slotted(ds[2], 2) && Slotted(ds[3], 5) && Slotted(ds[4], 4)
  {
  }

  lemma SlottedDigit(d: Device, top: nat)
    requires Slotted(d, top)
    ensures Digit(d.base, 32) == top
  {
    TopDigit(d.base);
  }

  lemma ConsoleDigits(ds: seq<Device>)
    requires IsConsole(ds)
    ensures |ds| == 5 && DistinctBases(ds)
    ensures forall i, j :: 0 <= i < j < 5 ==> Digit(ds[i].base, 32) != Digit(ds[j].base, 32)
  {
    ConsoleBases(ds);
    SlottedDigit(ds[0], 7);
    SlottedDigit(ds[1], 0);
    SlottedDigit(ds[2], 2);
    SlottedDigit(ds[3], 5);
    SlottedDigit(ds[4], 4);
  }

  /** The console's five devices have different top digits: whatever their sizes, an access
      in the 256 MB above a base reaches its device. */
  lemma ConsoleMap(ds: seq<Device>, i: nat, a: Addr, n: nat)
    requires IsConsole(ds) && i < |ds| && ds[i].base <= a < ds[i].base + 0x1000_0000
    ensures DistinctBases(ds) && MemoryMap(ds).Some? && Whole(MemoryMap(ds).value)
    ensures Access(MemoryMap(ds).value, a, n) == Some(ds[i])
  {
    ConsoleDigits(ds);
    ConsoleBases(ds);
    TopDigit(a);
    TopDigit(ds[i].base);
    TopDigits(ds, ds[i], a, n);
  }

  /** The exception is real: of two 256-byte devices at the ends of a 4 KB page, the last word
      of the upper one cannot be read. */
  lemma LastWordUnreachable()
    ensures var ds := [Leaf(0, 0, 0x100), Leaf(1, 0xF00, 0x100)];
      DistinctBases(ds) && MemoryMap(ds).Some? && Whole(MemoryMap(ds).value)
      && Access(MemoryMap(ds).value, 0xFFC, 4) == None
  {
    PageMap(Leaf(0, 0, 0x100), Leaf(1, 0xF00, 0x100));
  }

  lemma PageMap(lo: Device, hi: Device)
    requires lo.Leaf? && hi.Leaf? && lo.base == 0 && hi.base == 0xF00 && lo.size == hi.size == 0x100
    ensures var ds := [lo, hi];
      DistinctBases(ds) && MemoryMap(ds).Some? && Whole(MemoryMap(ds).value)
      && Access(MemoryMap(ds).value, 0xFFC, 4) == None
  {
    var ds := [lo, hi];
    var c := MemoryMap(ds).value;
    assert lo in ds && hi in ds;
    assert Leaves(c) == {lo, hi};
    PageStops(c, lo, hi);
    PageRegular(lo);
    PageRegular(hi);
    AccessInDevice(c, hi, 0xFFC, 4);
  }

  lemma PageRegular(l: Device)
    requires l.Leaf? && l.base < 0x1000 && l.base % 0x100 == 0 && l.size == 0x100
    ensures Regular(l, 8)
  {
    ShrBytes(l.base);
    assert Pow(4) == 0x10 && Pow(8) == 0x100;
    assert Shl(l.base / 0x100, 4) == 0x10 * (l.base / 0x100);
  }

  /** A second device at the upper one's base is attached all the same, and takes its place. */
  lemma DuplicateAttached(second: Device)
    requires second.Leaf?
    ensures var ds := [Leaf(0, 0, 0x100), Leaf(1, 0xF00, 0x100)];
      DistinctBases(ds) && MemoryMap(ds).Some? && Whole(MemoryMap(ds).value)
      && var r := Attach(MemoryMap(ds).value, second, 0xF00);
         r.Some? && Find(r.value, 0xF00) == Some(Rebase(second, 0xF00))
  {
    DuplicateInPage(Leaf(0, 0, 0x100), Leaf(1, 0xF00, 0x100), second);
  }

  lemma DuplicateInPage(lo: Device, hi: Device, second: Device)
    requires lo.Leaf? && hi.Leaf? && lo.base == 0 && hi.base == 0xF00 && second.Leaf?
    ensures var ds := [lo, hi];
      DistinctBases(ds) && MemoryMap(ds).Some? && Whole(MemoryMap(ds).value)
      && var r := Attach(MemoryMap(ds).value, second, 0xF00);
         r.Some? && Find(r.value, 0xF00) == Some(Rebase(second, 0xF00))
  {
    var ds := [lo, hi];
    var c := MemoryMap(ds).value;
    assert lo in ds && hi in ds;
    PageSlot(c, lo, hi);
    DuplicateBase(c, second, 0xF00, hi);
  }

  lemma PageSlot(c: Device, lo: Device, hi: Device)
    requires Whole(c) && Leaves(c) == {lo, hi} && lo.Leaf? && hi.Leaf? && lo.base == 0 && hi.base == 0xF00
    ensures Digit(0xF00, 32) == 0 && c.subs[0].Some?
    ensures var s := c.subs[0].value; s.Controller? && s.bits == 12 && s.base == 0 && s in Controllers(c)
  {
    TopDigit(0);
    TopDigit(0xF00);
    SlotOfLeaf(c, lo);
    SlotOfLeaf(c, hi);
    var s := c.subs[0].value;
    assert SlotOk(c, 0, s) && Shape(s) && Crowded(s);
    forall l | l in Leaves(s) ensures l in Leaves(c) { LeavesBelow(c, 0, l); }
    PageController(s, lo, hi);
    assert s in Controllers(s);
  }

  lemma PageStops(c: Device, lo: Device, hi: Device)
    requires Whole(c) && Leaves(c) == {lo, hi} && lo.Leaf? && hi.Leaf? && lo.base == 0 && hi.base == 0xF00
    ensures Stopped(c, 0xFFC, 4)
  {
    PageSlot(c, lo, hi);
    assert Shr(0xFFC, 4) == 0xFF && Shr(0xFFC, 8) == 0xF && Shr(0xFFC, 12) == 0 && Shr(0, 12) == 0;
    assert Pow(4) == 0x10 && Pow(8) == 0x100 && Pow(12) == 0x1000;
    assert Stops(c.subs[0].value, 0xFFC, 4);
  }

  /** The controller that holds both. */
  lemma PageController(s: Device, lo: Device, hi: Device)
    requires Shape(s) && Crowded(s) && lo in Leaves(s) && hi in Leaves(s) && Leaves(s) <= {lo, hi}
    requires lo.Leaf? && hi.Leaf? && lo.base == 0 && hi.base == 0xF00
    ensures s.Controller? && s.bits == 12 && s.base == 0
  {
    DifferentSlots(s, lo, hi);
    LeafBase(s, lo);
    LeafBase(s, hi);
    OnlyDigit(s.bits);
    assert Shr(0, 4) == 0 && Shr(0, 8) == 0 && Shr(0, 12) == 0;
    ShlSign(0, 12);
  }

  lemma DifferentSlots(s: Device, lo: Device, hi: Device)
    requires Shape(s) && Crowded(s) && s.Controller? && Leaves(s) <= {lo, hi} && lo.Leaf? && hi.Leaf?
    ensures Digit(lo.base, s.bits) != Digit(hi.base, s.bits)
  {
    var i, j :| 0 <= i < j < |s.subs| && s.subs[i].Some? && s.subs[j].Some?;
    var p := HasLeaf(s.subs[i].value);
    var q := HasLeaf(s.subs[j].value);
    LeafSlot(s, i, p);
    LeafSlot(s, j, q);
    LeavesBelow(s, i, p);
    LeavesBelow(s, j, q);
  }

  lemma OnlyDigit(n: nat)
    requires IsBits(n) && n >= 4 && Digit(0xF00, n) != Digit(0, n) && Same(0, 0xF00, n)
    ensures n == 12
  {
    assert Shr(0xF00, 4) == 0xF0 && Shr(0xF00, 8) == 0xF && Shr(0xF00, 12) == 0;
    assert Shr(0, 4) == 0 && Shr(0, 8) == 0 && Shr(0, 12) == 0;
    if n > 12 { SameUp(0, 0xF00, 12, n - 4); }
  }
}
