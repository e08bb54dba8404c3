/** Memory devices and controllers as objects.  A controller is attached to in place: the
    methods are proved to take the tree of objects to the trie MemoryController specifies. */
module MemoryDevices {
  import opened MachineWords
  import opened AddressDigits
  import opened MemoryController

  class MemoryDevice {
    const isController: bool
    const id: nat                          // of a device that is not a controller
    const size: nat
    const bits: nat                        // of a controller; 0 otherwise
    var base: Addr
    var subDevices: seq<MemoryDevice?>
    ghost var repr: set<MemoryDevice>      // this and everything below
    ghost var view: Device

    ghost predicate Valid()
      reads this, repr
      decreases repr
    {
      && this in repr
      && if !isController then
           repr == {this} && bits == 0 && subDevices == [] && view == Leaf(id, base, size)
         else
           && IsBits(bits) && bits >= 4
           && view.Controller? && view.base == base && view.bits == bits && |view.subs| == |subDevices| == 16
           && (forall i :: 0 <= i < 16 && subDevices[i] == null ==> view.subs[i].None?)
           && (forall i :: 0 <= i < 16 && subDevices[i] != null ==>
                 && subDevices[i] in repr && subDevices[i].repr < repr && this !in subDevices[i].repr
                 && subDevices[i].Valid() && view.subs[i] == Some(subDevices[i].view))
           && (forall i, j :: 0 <= i < j < 16 && subDevices[i] != null && subDevices[j] != null ==>
                 subDevices[i].repr !! subDevices[j].repr)
    }

    constructor Plain(id: nat, size: nat)
      ensures Valid() && fresh(repr) && view == Leaf(id, 0, size) && repr == {this}
    {
      isController, this.id, this.size, bits := false, id, size, 0;
      base, subDevices := 0, [];
      view := Leaf(id, 0, size);
      repr := {this};
    }

    constructor Controller(bits: nat)
      requires IsBits(bits) && bits >= 4
      ensures Valid() && isController && this.bits == bits && fresh(repr) && repr == {this} && view == NewController(bits)
    {
      isController, id, size, this.bits := true, 0, 0, bits;
      base := 0;
      subDevices := seq(16, _ => null);
      view := NewController(bits);
      repr := {this};
    }

    /** BaseAddress(addr) */
    method SetBase(addr: Addr)
      requires Valid()
      modifies this`base, this`view
      ensures Valid() && view == Rebase(old(view), addr)
    {
      base := addr;
      view := Rebase(view, addr);
    }

    /** The part of AttachDevice for an empty slot. */
    method PlaceDevice(device: MemoryDevice, addr: Addr) returns (ok: bool)
      requires Valid() && isController
      requires device.Valid() && device.repr !! repr
      modifies this, device`base, device`view
      ensures Valid() && Place(old(view), old(device.view), addr) == if ok then Some(view) else None
      ensures ok ==> repr == old(repr) + device.repr
      ensures !ok ==> view == old(view) && repr == old(repr) && device.view == old(device.view) && device.base == old(device.base)
      ensures device.Valid() && (ok ==> device.view == Rebase(old(device.view), addr))
    {
      var offset := Wrap(addr - base);
      if bits < 32 && Pow(bits) <= offset { return false; }
      var i := Digit(offset, bits);
      if subDevices[i] != null { return false; }
      device.SetBase(addr);
      subDevices := subDevices[i := device];
      view := Put(view, i, device.view);
      repr := repr + device.repr;
      ok := true;
    }

    /** What a load or store of n bytes reaches, or null where a controller throws. */
    method Reach(addr: Addr, n: nat) returns (d: MemoryDevice?)
      requires Valid()
      decreases repr
      ensures d == null <==> Access(view, addr, n).None?
      ensures d != null ==> d in repr && !d.isController && Access(view, addr, n) == Some(d.view)
    {
      if !isController { return this; }
      var offset := Wrap(addr - base);
      if bits < 32 && (Pow(bits) <= offset || Wrap(offset + n) >= Pow(bits)) { return null; }
      var sub := subDevices[Digit(offset, bits)];
      if sub == null { return null; }
      d := sub.Reach(addr, n);
    }

    /** Everything is in order except, possibly, what slot i holds. */
    ghost predicate ValidBut(i: int)
      reads this, repr
    {
      && this in repr && isController && IsBits(bits) && bits >= 4
      && view.Controller? && view.base == base && view.bits == bits && |view.subs| == |subDevices| == 16
      && (forall j :: 0 <= j < 16 && j != i && subDevices[j] == null ==> view.subs[j].None?)
      && (forall j :: 0 <= j < 16 && j != i && subDevices[j] != null ==>
            && subDevices[j] in repr && subDevices[j].repr < repr && this !in subDevices[j].repr
            && subDevices[j].Valid() && view.subs[j] == Some(subDevices[j].view))
      && (forall j, k :: 0 <= j < k < 16 && j != i && k != i && subDevices[j] != null && subDevices[k] != null ==>
            subDevices[j].repr !! subDevices[k].repr)
    }

    /** Puts a device, or the device already there once it has changed, in slot i. */
    method Refill(i: nat, now: MemoryDevice)
      requires i < 16 && ValidBut(i) && now.Valid() && this !in now.repr
      requires forall j :: 0 <= j < 16 && j != i && subDevices[j] != null ==> subDevices[j].repr !! now.repr
      modifies this`subDevices, this`view, this`repr
      ensures Valid() && view == Put(old(view), i, now.view) && repr == old(repr) + now.repr
    {
      subDevices := subDevices[i := now];
      view := Put(view, i, now.view);
      repr := repr + now.repr;
    }

    /** The new controller that takes both the device and what was in its slot. */
    static method SplitDevices(n: nat, sub: MemoryDevice, device: MemoryDevice, addr: Addr) returns (c: MemoryDevice)
      requires Parts(n, addr, sub.view.base) && sub.Valid() && device.Valid() && sub.repr !! device.repr
      modifies sub`base, sub`view, device`base, device`view
      ensures fresh(c) && c.Valid() && c.repr == {c} + sub.repr + device.repr && sub.repr == old(sub.repr) && device.repr == old(device.repr)
      ensures Split(n, old(sub.view), old(device.view), addr) == Some(c.view)
    {
      SplitSteps(n, sub.view, device.view, addr);
      c := new MemoryDevice.Controller(n);
      c.SetBase(Truncate(addr, n));
      var placed := c.PlaceDevice(device, addr);
      assert placed;
      var also := c.PlaceDevice(sub, sub.base);
      assert also;
    }

    /** The slot's device and the new one move into a new controller of n bits. */
    method SplitAtBits(i: nat, n: nat, device: MemoryDevice, addr: Addr, ghost below: Device) returns (ghost s: Device)
      requires Valid() && isController && i < 16 && subDevices[i] != null
      requires device.Valid() && device.repr !! repr && below == subDevices[i].view && Parts(n, addr, below.base)
      modifies repr, device
      ensures Valid() && fresh(repr - old(repr) - device.repr) && device.repr == old(device.repr)
      ensures Split(n, below, old(device.view), addr) == Some(s) && view == Put(old(view), i, s)
    {
      var c := SplitDevices(n, subDevices[i], device, addr);
      s := c.view;
      Refill(i, c);
    }

    /** The mask loop, then the split, unless the bases are equal. */
    method SplitSlot(i: nat, device: MemoryDevice, addr: Addr, ghost k: nat, ghost below: Device)
      returns (ok: bool, ghost s: Device)
      requires Valid() && isController && i < 16 && subDevices[i] != null
      requires device.Valid() && device.repr !! repr && below == subDevices[i].view
      requires k == SplitAt(view, below, addr) && (k != 0 ==> Parts(k, addr, below.base))
      modifies repr, device
      ensures Valid() && fresh(repr - old(repr) - device.repr) && device.repr == old(device.repr)
      ensures ok <==> k != 0
      ensures ok ==> Split(k, below, old(device.view), addr) == Some(s) && view == Put(old(view), i, s)
      ensures !ok ==> unchanged(this) && unchanged(device) && unchanged(old(repr))
    {
      var n := FindSplit(Wrap(addr - base), Wrap(subDevices[i].base - base), bits - 4);
      assert n == k;
      if n == 0 { return false, below; }
      s := SplitAtBits(i, n, device, addr, below);
      ok := true;
    }

    /** Offers the new device to the slot's own device. */
    method AttachBySlot(i: nat, device: MemoryDevice, addr: Addr, ghost below: Device) returns (ok: bool)
      requires Valid() && isController && device.Valid() && device.repr !! repr && i < 16 && subDevices[i] != null
      requires below == subDevices[i].view && Shape(below) && bits > 0 && (below.Controller? ==> below.bits < bits)
      modifies repr, device
      decreases bits, 0
      ensures Valid() && device.repr == old(device.repr) && fresh(repr - old(repr) - device.repr)
      ensures ok <==> Attach(below, old(device.view), addr).Some?
      ensures ok ==> view == Put(old(view), i, Attach(below, old(device.view), addr).value)
      ensures !ok ==> unchanged(this) && unchanged(device) && unchanged(old(repr))
    {
      var sub := subDevices[i];
      ghost var all, slot := repr, sub.repr;
      ok := sub.AttachDevice(device, addr);
      if ok {
        Refill(i, sub);
        assert repr == all + sub.repr && slot <= all;
      }
    }

    /** The part of AttachDevice for a taken slot. */
    method AttachInSlot(i: nat, device: MemoryDevice, addr: Addr) returns (ok: bool)
      requires Valid() && isController && device.Valid() && device.repr !! repr && Shape(view)
      requires InRegion(view, addr) && i == Digit(addr, bits) && subDevices[i] != null
      modifies repr, device
      decreases bits, 1
      ensures Valid() && Attach(old(view), old(device.view), addr) == if ok then Some(view) else None
      ensures !ok ==> unchanged(this) && unchanged(device) && unchanged(old(repr))
      ensures device.repr == old(device.repr) && fresh(repr - old(repr) - device.repr)
    {
      ghost var c, below := view, subDevices[i].view;
      AttachBelow(c, i, below, device.view, addr);
      ok := AttachBySlot(i, device, addr, below);
      if !ok {
        var split, _ := SplitSlot(i, device, addr, SplitAt(c, below, addr), below);
        ok := split;
      }
    }

    method AttachDevice(device: MemoryDevice, addr: Addr) returns (ok: bool)
      requires Valid() && device.Valid() && device.repr !! repr && Shape(view)
      modifies repr, device
      decreases bits
      ensures Valid() && Attach(old(view), old(device.view), addr) == if ok then Some(view) else None
      ensures !ok ==> unchanged(this) && unchanged(device) && unchanged(old(repr))
      ensures device.repr == old(device.repr) && fresh(repr - old(repr) - device.repr)
    {
      if !isController { return false; }
      IndexIsDigit(view, addr);
      var offset := Wrap(addr - base);
      if bits < 32 && Pow(bits) <= offset { return false; }
      var i := Digit(offset, bits);
      if subDevices[i] == null {
        ok := PlaceDevice(device, addr);
      } else {
        ok := AttachInSlot(i, device, addr);
      }
    }
  }
}
