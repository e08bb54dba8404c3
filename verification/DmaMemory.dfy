/** RAM as the DMA channels see it, and the bytes of one transfer in it.

    A RAM device checks ranges with 32-bit arithmetic, relative to its base; what a range means
    by address is Inside, and Region is the bytes of one.  A job is a transfer of some bytes from
    one region to another that does not overlap it.  It is held up to a count of bytes if the
    source region still has all of them and the destination region the first so many.  Writing
    changes nothing outside the range written, so regions apart from it keep their bytes, and
    copying the next few bytes of a job moves the count up by as many.  Nothing here depends on
    the registers of a channel or on how many bytes one increment moves, which Dma.dfy adds.  The
    lemmas are about one copy each, and about any two memories that agree outside a range, so
    that they serve for both channels and for what the processor writes in between. */
module DmaMemory {
  import opened MachineWords

  /** Sizes are 24-bit numbers. */
  const SIZE_LIMIT := 0x100_0000

  datatype Ram = Ram(base: Addr, data: seq<Byte>)

  /** AccessAddress does not throw. */
  predicate InRange(ram: Ram, addr: Addr, size: Addr) {
    var index := Minus(addr, ram.base);
    index < |ram.data| && Plus(index, size) <= |ram.data|
  }

  predicate Small(ram: Ram) { |ram.data| + SIZE_LIMIT <= WORD }

  /** The end of the range does not wrap. */
  predicate Ends(ram: Ram, addr: Addr, size: nat) { Minus(addr, ram.base) < |ram.data| ==> Minus(addr, ram.base) + size < WORD }

  function Slice(ram: Ram, addr: Addr, size: Addr): (s: seq<Byte>)
    requires Ends(ram, addr, size) && InRange(ram, addr, size)
    ensures |s| == size
  {
    var i := Minus(addr, ram.base);
    ram.data[i..i + size]
  }

  /** Stores bytes from an index on. */
  function Write(ram: Ram, i: nat, src: seq<Byte>): (r: Ram)
    requires i + |src| <= |ram.data|
    ensures r.base == ram.base && |r.data| == |ram.data|
    decreases |src|
  {
    if src == [] then ram else Write(ram.(data := ram.data[i := src[0]]), i + 1, src[1..])
  }

  datatype Copied = Done(ram: Ram) | SourceThrew | DestinationThrew

  /** A load followed by a store, in any of the widths IncrementDMA uses. */
  function Copy(ram: Ram, from: Addr, to: Addr, size: Addr): Copied
    requires Small(ram) && size < SIZE_LIMIT
  {
    if !InRange(ram, from, size) then SourceThrew
    else if !InRange(ram, to, size) then DestinationThrew
    else Done(Write(ram, Minus(to, ram.base), Slice(ram, from, size)))
  }

  // ---- the bytes of a transfer ------------------------------------------------

  /** A transfer of `bytes` between two regions of RAM. */
  datatype Job = Job(from: Addr, to: Addr, bytes: seq<Byte>)

  predicate Inside(ram: Ram, addr: int, size: nat) {
    ram.base <= addr && addr + size <= ram.base + |ram.data|
  }

  predicate Apart(a: int, n: nat, b: int, m: nat) { a + n <= b || b + m <= a }

  predicate JobOk(ram: Ram, j: Job) {
    && Small(ram) && ram.base + |ram.data| <= WORD
    && 0 < |j.bytes| < SIZE_LIMIT
    && Inside(ram, j.from, |j.bytes|) && Inside(ram, j.to, |j.bytes|)
    && Apart(j.from, |j.bytes|, j.to, |j.bytes|)
  }

  function At(ram: Ram, addr: int): Byte
    requires ram.base <= addr < ram.base + |ram.data|
  {
    ram.data[addr - ram.base]
  }

  /** The bytes at [addr, addr + size). */
  function Region(ram: Ram, addr: int, size: nat): (r: seq<Byte>)
    requires Inside(ram, addr, size)
    ensures |r| == size
  {
    ram.data[addr - ram.base..addr - ram.base + size]
  }

  /** The source still holds the bytes, and the first `done` of them are at the destination. */
  predicate Holds(ram: Ram, j: Job, done: nat)
    requires JobOk(ram, j) && done <= |j.bytes|
  {
    Region(ram, j.from, |j.bytes|) == j.bytes && Region(ram, j.to, done) == j.bytes[..done]
  }

  predicate SameShape(ram: Ram, ram1: Ram) { ram1.base == ram.base && |ram1.data| == |ram.data| }

  /** Nothing outside [addr, addr + size) differs. */
  predicate SameOutside(ram: Ram, ram1: Ram, addr: int, size: nat) {
    && ram1.base == ram.base && |ram1.data| == |ram.data|
    && forall a :: ram.base <= a < ram.base + |ram.data| && !(addr <= a < addr + size) ==> At(ram1, a) == At(ram, a)
  }

  lemma RegionKept(ram: Ram, ram1: Ram, to: int, size: nat, addr: int, n: nat)
    requires SameOutside(ram, ram1, to, size) && Inside(ram, addr, n) && (n == 0 || Apart(addr, n, to, size))
    ensures Region(ram1, addr, n) == Region(ram, addr, n)
  {
    forall i | 0 <= i < n ensures Region(ram1, addr, n)[i] == Region(ram, addr, n)[i] {
      assert At(ram1, addr + i) == At(ram, addr + i);
    }
  }

  lemma {:induction false} WriteBytes(ram: Ram, i: nat, src: seq<Byte>)
    requires i + |src| <= |ram.data|
    ensures Write(ram, i, src).data == ram.data[..i] + src + ram.data[i + |src|..]
    decreases |src|
  {
    if src == [] {
      assert ram.data[..i] + src + ram.data[i..] == ram.data;
    } else {
      var ram1 := ram.(data := ram.data[i := src[0]]);
      WriteBytes(ram1, i + 1, src[1..]);
      assert ram1.data[..i + 1] == ram.data[..i] + [src[0]];
      assert src == [src[0]] + src[1..];
    }
  }

  /** What Write does, by address. */
  lemma WriteAt(ram: Ram, addr: int, src: seq<Byte>)
    requires Inside(ram, addr, |src|)
    ensures var ram1 := Write(ram, addr - ram.base, src); SameOutside(ram, ram1, addr, |src|) && Region(ram1, addr, |src|) == src
  {
    WriteBytes(ram, addr - ram.base, src);
  }

  lemma CopyInside(ram: Ram, from: Addr, to: Addr, size: Addr) returns (ram1: Ram)
    requires Small(ram) && ram.base + |ram.data| <= WORD && 0 < size < SIZE_LIMIT && Inside(ram, from, size) && Inside(ram, to, size)
    ensures Copy(ram, from, to, size) == Done(ram1)
    ensures SameOutside(ram, ram1, to, size) && Region(ram1, to, size) == Region(ram, from, size)
  {
    WriteAt(ram, to, Slice(ram, from, size));
    ram1 := Write(ram, to - ram.base, Slice(ram, from, size));
  }

  lemma RegionSplit(ram: Ram, addr: int, n: nat, m: nat)
    requires Inside(ram, addr, n + m)
    ensures Region(ram, addr, n + m) == Region(ram, addr, n) + Region(ram, addr + n, m)
  {
  }

  lemma RegionPrefix(ram: Ram, addr: int, n: nat, m: nat)
    requires n <= m && Inside(ram, addr, m)
    ensures Region(ram, addr, n) == Region(ram, addr, m)[..n]
  {
  }

  /** The source keeps its bytes. */
  lemma SourceKept(ram: Ram, ram1: Ram, j: Job, done: nat, size: nat)
    requires JobOk(ram, j) && done + size <= |j.bytes| && SameOutside(ram, ram1, j.to + done, size)
    ensures JobOk(ram1, j) && Region(ram1, j.from, |j.bytes|) == Region(ram, j.from, |j.bytes|)
  {
    RegionKept(ram, ram1, j.to + done, size, j.from, |j.bytes|);
  }

  /** The destination grows by the bytes copied. */
  lemma DestinationGrows(ram: Ram, ram1: Ram, j: Job, done: nat, size: nat)
    requires JobOk(ram, j) && JobOk(ram1, j) && done + size <= |j.bytes| && SameOutside(ram, ram1, j.to + done, size)
    ensures Region(ram1, j.to, done + size) == Region(ram, j.to, done) + Region(ram1, j.to + done, size)
  {
    RegionKept(ram, ram1, j.to + done, size, j.to, done);
    RegionSplit(ram1, j.to, done, size);
  }

  lemma HoldsMore(ram: Ram, ram1: Ram, j: Job, done: nat, size: nat)
    requires JobOk(ram, j) && 0 < size && done + size <= |j.bytes| && Holds(ram, j, done)
    requires SameOutside(ram, ram1, j.to + done, size)
    requires Region(ram1, j.to + done, size) == Region(ram, j.from + done, size)
    ensures JobOk(ram1, j) && Holds(ram1, j, done + size)
  {
    SourceKept(ram, ram1, j, done, size);
    DestinationGrows(ram, ram1, j, done, size);
    RegionSplit(ram, j.from, done, |j.bytes| - done);
    RegionSplit(ram, j.from + done, size, |j.bytes| - done - size);
  }

  /** Copying the next `size` bytes of a job. */
  lemma CopyHolds(ram: Ram, j: Job, done: nat, size: Addr) returns (ram1: Ram)
    requires JobOk(ram, j) && 0 < size && done + size <= |j.bytes| && Holds(ram, j, done)
    ensures Copy(ram, j.from + done, j.to + done, size) == Done(ram1)
    ensures JobOk(ram1, j) && Holds(ram1, j, done + size) && SameOutside(ram, ram1, j.to, |j.bytes|)
  {
    ram1 := CopyInside(ram, j.from + done, j.to + done, size);
    HoldsMore(ram, ram1, j, done, size);
  }

  lemma CopyNext(ram: Ram, from: Addr, to: Addr, j: Job, done: nat, size: Addr) returns (ram1: Ram)
    requires JobOk(ram, j) && 0 < size && done + size <= |j.bytes| && Holds(ram, j, done)
    requires from == j.from + done && to == j.to + done
    ensures Copy(ram, from, to, size) == Done(ram1)
    ensures JobOk(ram1, j) && Holds(ram1, j, done + size) && SameOutside(ram, ram1, j.to, |j.bytes|)
  {
    ram1 := CopyHolds(ram, j, done, size);
  }
}
