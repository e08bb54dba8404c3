/** The two-level block instruction cache: blocks of four sub-blocks of 256 words, where
    overlapping blocks share their sub-blocks. */
module InstructionCache {
  import opened MachineWords

  const SUB_BLOCK_SIZE := 1024
  const BLOCK_SIZE := 4096

  /** addr & DSubBlockMask */
  function SubBase(addr: Addr): Addr { addr - addr % SUB_BLOCK_SIZE }

  /** The base of the i-th sub-block of a block. */
  function Part(base: Addr, i: nat): Addr { Wrap(base + i * SUB_BLOCK_SIZE) }

  /** Which sub-block of the block at `base` contains `sub`. */
  function PartIndex(sub: Addr, base: Addr): int { (sub - base) / SUB_BLOCK_SIZE }

  function Slot(addr: Addr): (i: int)
    ensures 0 <= i < 256
  {
    addr % SUB_BLOCK_SIZE / 4
  }

  function EmptyBlock<I>(): (s: seq<Option<I>>)
    ensures |s| == 256
  {
    seq(256, _ => None)
  }

  /** A cache as a map from word numbers to decoded instructions. */
  type Cache<I> = imap<int, I>

  /** What FlushRange leaves. */
  ghost function Flush<I>(c: Cache<I>, addr: Addr, size: Addr): Cache<I> {
    imap k | k in c && 0 <= k < WORD / 4 && !Flushed(SubBase(4 * k), addr, size) :: c[k]
  }

  ghost function Lookup<I>(c: Cache<I>, addr: Addr): Option<I> {
    if addr / 4 in c then Some(c[addr / 4]) else None
  }

  /** The instructions of every sub-block in the table. */
  type Contents<I> = map<Addr, seq<Option<I>>>

  predicate Shaped<I(!new)>(t: Contents<I>) {
    forall a :: a in t ==> a % SUB_BLOCK_SIZE == 0 && |t[a]| == 256
  }

  /** What the table holds for an address. */
  function At<I(!new)>(t: Contents<I>, addr: Addr): Option<I>
    requires Shaped(t)
  {
    if SubBase(addr) in t then t[SubBase(addr)][Slot(addr)] else None
  }

  ghost function WordsOf<I(!new)>(t: Contents<I>): Cache<I>
    requires Shaped(t)
  {
    imap k | 0 <= k < WORD / 4 && At(t, 4 * k).Some? :: At(t, 4 * k).value
  }

  lemma WordsAt<I(!new)>(t: Contents<I>, addr: Addr)
    requires Shaped(t)
    ensures At(t, addr) == Lookup(WordsOf(t), addr)
  {
    SameWord(4 * (addr / 4), addr);
  }

  /** Adding empty sub-blocks changes nothing. */
  lemma WordsGrown<I(!new)>(t: Contents<I>, t1: Contents<I>)
    requires Shaped(t) && Shaped(t1)
    requires forall a :: a in t ==> a in t1 && t1[a] == t[a]
    requires forall a :: a in t1 && a !in t ==> t1[a] == EmptyBlock()
    ensures WordsOf(t1) == WordsOf(t)
  {
    forall a: Addr ensures At(t1, a) == At(t, a) {
      if SubBase(a) in t { assert SubBase(a) in t1; }
    }
  }

  lemma InsertedAt<I(!new)>(t: Contents<I>, t1: Contents<I>, addr: Addr, inst: I, a: Addr)
    requires Shaped(t) && SubBase(addr) in t && t1 == t[SubBase(addr) := t[SubBase(addr)][Slot(addr) := Some(inst)]]
    ensures Shaped(t1) && At(t1, a) == if a / 4 == addr / 4 then Some(inst) else At(t, a)
  {
    SameWord(a, addr);
  }

  lemma WordsInserted<I(!new)>(t: Contents<I>, addr: Addr, inst: I)
    requires Shaped(t) && SubBase(addr) in t
    ensures var t1 := t[SubBase(addr) := t[SubBase(addr)][Slot(addr) := Some(inst)]];
      Shaped(t1) && WordsOf(t1) == WordsOf(t)[addr / 4 := inst]
  {
    var t1 := t[SubBase(addr) := t[SubBase(addr)][Slot(addr) := Some(inst)]];
    InsertedAt(t, t1, addr, inst, addr);
    forall k | 0 <= k < WORD / 4 ensures At(t1, 4 * k) == if k == addr / 4 then Some(inst) else At(t, 4 * k) {
      InsertedAt(t, t1, addr, inst, 4 * k);
    }
  }

  ghost function Hit(keys: set<Addr>, addr: Addr, size: Addr): set<Addr> {
    set a | a in keys && Flushed(a, addr, size)
  }

  /** `t1` is `t` with the sub-blocks of `hit` emptied. */
  ghost predicate Emptied<I(!new)>(t: Contents<I>, t1: Contents<I>, hit: set<Addr>) {
    t.Keys == t1.Keys && forall a :: a in t ==> t1[a] == if a in hit then EmptyBlock() else t[a]
  }

  lemma WordsFlushed<I(!new)>(t: Contents<I>, t1: Contents<I>, addr: Addr, size: Addr)
    requires Shaped(t) && Shaped(t1) && Emptied(t, t1, Hit(t.Keys, addr, size))
    ensures WordsOf(t1) == Flush(WordsOf(t), addr, size)
  {
    forall a: Addr ensures At(t1, a) == if Flushed(SubBase(a), addr, size) then None else At(t, a) {
      if SubBase(a) in t { assert SubBase(a) in t1; }
    }
  }

  class SubBlock<I> {
    const base: Addr
    var instrs: seq<Option<I>>

    constructor (base: Addr)
      ensures this.base == base && instrs == EmptyBlock<I>()
    {
      this.base := base;
      instrs := EmptyBlock<I>();
    }
  }

  class Block<I> {
    const base: Addr
    const subBlocks: seq<SubBlock<I>>

    constructor (base: Addr, subBlocks: seq<SubBlock<I>>)
      ensures this.base == base && this.subBlocks == subBlocks
    {
      this.base, this.subBlocks := base, subBlocks;
    }
  }

  class BlockCache<!I(!new)> {
    var currentBlock: Block?<I>
    var currentSubBlock: SubBlock?<I>
    var hashedBlocks: map<Addr, Block<I>>
    var hashedSubBlocks: map<Addr, SubBlock<I>>

    ghost predicate SubBlocksOk()
      reads this, hashedSubBlocks.Values
    {
      forall a :: a in hashedSubBlocks ==>
        a % SUB_BLOCK_SIZE == 0 && hashedSubBlocks[a].base == a && |hashedSubBlocks[a].instrs| == 256
    }

    /** A block's sub-blocks are the very objects in the sub-block table. */
    ghost predicate BlockOk(b: Block<I>)
      reads this
    {
      && |b.subBlocks| == 4
      && forall i :: 0 <= i < 4 ==>
        Part(b.base, i) in hashedSubBlocks
        && b.subBlocks[i] == hashedSubBlocks[Part(b.base, i)]
    }

    ghost predicate Tables()
      reads this, hashedSubBlocks.Values
    {
      && SubBlocksOk()
      && forall a :: a in hashedBlocks ==>
        a % SUB_BLOCK_SIZE == 0 && hashedBlocks[a].base == a && BlockOk(hashedBlocks[a])
    }

    ghost predicate Valid()
      reads this, hashedSubBlocks.Values
    {
      && Tables()
      && currentBlock != null && currentSubBlock != null
      && currentBlock.base in hashedBlocks && hashedBlocks[currentBlock.base] == currentBlock
      && currentSubBlock.base in hashedSubBlocks && hashedSubBlocks[currentSubBlock.base] == currentSubBlock
    }

    ghost function Contents(): Contents<I>
      reads this, hashedSubBlocks.Values
    {
      map a | a in hashedSubBlocks :: hashedSubBlocks[a].instrs
    }

    ghost function Words(): Cache<I>
      requires SubBlocksOk()
      reads this, hashedSubBlocks.Values
    {
      WordsOf(Contents())
    }

    /** The sub-block table has only grown, by empty sub-blocks. */
    twostate predicate Grown()
      reads this, hashedSubBlocks.Values
    {
      && (forall a :: a in old(hashedSubBlocks) ==> a in hashedSubBlocks && hashedSubBlocks[a] == old(hashedSubBlocks)[a])
      && (forall a :: a in hashedSubBlocks && a !in old(hashedSubBlocks) ==>
            fresh(hashedSubBlocks[a]) && hashedSubBlocks[a].instrs == EmptyBlock<I>())
    }

    constructor ()
      ensures Valid() && Words() == imap[]
      ensures forall a :: a in hashedSubBlocks ==> fresh(hashedSubBlocks[a])
    {
      currentBlock, currentSubBlock := null, null;
      hashedBlocks, hashedSubBlocks := map[], map[];
      new;
      var b := GetBlock(0);
      currentBlock := b;
      currentSubBlock := b.subBlocks[0];
      WordsGrown(map[], Contents());
    }

    method GetSubBlock(addr: Addr) returns (s: SubBlock<I>)
      requires Tables() && addr % SUB_BLOCK_SIZE == 0
      modifies this`hashedSubBlocks
      ensures Tables() && Grown() && addr in hashedSubBlocks && hashedSubBlocks[addr] == s
      ensures forall b: Block<I> :: old(allocated(b)) && old(BlockOk(b)) ==> BlockOk(b)
    {
      if addr !in hashedSubBlocks {
        s := new SubBlock<I>(addr);
        hashedSubBlocks := hashedSubBlocks[addr := s];
      }
      s := hashedSubBlocks[addr];
    }

    method GetBlock(addr: Addr) returns (b: Block<I>)
      requires Tables() && addr % SUB_BLOCK_SIZE == 0
      modifies this`hashedSubBlocks, this`hashedBlocks
      ensures Tables() && Grown() && b.base == addr && addr in hashedBlocks && hashedBlocks[addr] == b
      ensures forall a :: a in old(hashedBlocks) ==> a in hashedBlocks && hashedBlocks[a] == old(hashedBlocks)[a]
    {
      if addr in hashedBlocks { return hashedBlocks[addr]; }
      var subBlocks: seq<SubBlock<I>>, offset := [], 0;
      while offset < BLOCK_SIZE
        invariant offset == |subBlocks| * SUB_BLOCK_SIZE && |subBlocks| <= 4
        invariant Tables() && Grown() && hashedBlocks == old(hashedBlocks)
        invariant forall i :: 0 <= i < |subBlocks| ==>
          Part(addr, i) in hashedSubBlocks
          && subBlocks[i] == hashedSubBlocks[Part(addr, i)]
      {
        Aligned(addr, |subBlocks|);
        assert Wrap(addr + offset) == Part(addr, |subBlocks|);
        var s := GetSubBlock(Wrap(addr + offset));
        subBlocks := subBlocks + [s];
        offset := offset + SUB_BLOCK_SIZE;
      }
      b := new Block<I>(addr, subBlocks);
      hashedBlocks := hashedBlocks[addr := b];
    }

    /** Makes the current block one that contains the sub-block. */
    method SelectBlock(subAddr: Addr)
      requires Valid() && subAddr % SUB_BLOCK_SIZE == 0
      modifies this
      ensures Valid() && Grown() && currentSubBlock == old(currentSubBlock)
      ensures currentBlock.base <= subAddr && (subAddr == currentBlock.base || subAddr < Wrap(currentBlock.base + BLOCK_SIZE))
    {
      if currentBlock.base > subAddr || subAddr >= Wrap(currentBlock.base + BLOCK_SIZE) {
        currentBlock := GetBlock(subAddr);
      }
    }

    /** The search both Fetch and Insert begin with. */
    method Select(addr: Addr)
      requires Valid()
      modifies this
      ensures Valid() && Grown() && currentSubBlock.base == SubBase(addr)
    {
      var subAddr := SubBase(addr);
      if currentSubBlock.base != subAddr {
        SelectBlock(subAddr);
        InBlock(subAddr, currentBlock.base);
        assert BlockOk(currentBlock);
        currentSubBlock := currentBlock.subBlocks[PartIndex(subAddr, currentBlock.base)];
      }
    }

    method Fetch(addr: Addr) returns (r: Option<I>)
      requires Valid()
      modifies this
      ensures Valid() && Grown() && Words() == old(Words()) && r == Lookup(Words(), addr)
    {
      Select(addr);
      r := currentSubBlock.instrs[Slot(addr)];
      WordsAt(Contents(), addr);
      WordsGrown(old(Contents()), Contents());
    }

    method Insert(addr: Addr, inst: I)
      requires Valid()
      modifies this, hashedSubBlocks.Values
      ensures Valid()
      ensures forall a :: a in old(hashedSubBlocks) ==> a in hashedSubBlocks && hashedSubBlocks[a] == old(hashedSubBlocks)[a]
      ensures forall a :: a in hashedSubBlocks && a !in old(hashedSubBlocks) ==> fresh(hashedSubBlocks[a])
      ensures Words() == old(Words())[addr / 4 := inst]
    {
      Select(addr);
      ghost var t := Contents();
      WordsGrown(old(Contents()), t);
      WordsInserted(t, addr, inst);
      currentSubBlock.instrs := currentSubBlock.instrs[Slot(addr) := Some(inst)];
      assert Contents() == t[SubBase(addr) := currentSubBlock.instrs];
    }

    method Reset()
      requires Valid()
      modifies this
      ensures Valid() && Words() == imap[]
      ensures forall a :: a in hashedSubBlocks ==> fresh(hashedSubBlocks[a])
    {
      hashedBlocks, hashedSubBlocks := map[], map[];
      currentBlock := GetBlock(0);
      currentSubBlock := currentBlock.subBlocks[0];
      WordsGrown(map[], Contents());
    }

    /** Empties every sub-block that is not clear of the range. */
    method FlushRange(addr: Addr, size: Addr)
      requires Valid()
      modifies hashedSubBlocks.Values
      ensures Valid()
      ensures Words() == Flush(old(Words()), addr, size)
    {
      ghost var t, hit := Contents(), Hit(hashedSubBlocks.Keys, addr, size);
      var rest := hashedSubBlocks.Keys;
      while rest != {}
        invariant rest <= hashedSubBlocks.Keys && SubBlocksOk() && Emptied(t, Contents(), hit - rest)
        decreases |rest|
      {
        var a :| a in rest;
        rest := rest - {a};
        if Flushed(a, addr, size) { hashedSubBlocks[a].instrs := EmptyBlock<I>(); }
      }
      assert hit - rest == hit;
      WordsFlushed(t, Contents(), addr, size);
    }
  }

  /** Whether FlushRange empties the sub-block at `first`; both sums wrap at 32 bits. */
  predicate Flushed(first: Addr, addr: Addr, size: Addr) {
    !(Wrap(first + SUB_BLOCK_SIZE) < addr || Wrap(addr + size) < first)
  }

  /** Where no sum wraps, a flush drops exactly the words of the 1 KB sub-blocks that the range
      meets or touches, and keeps all others as they are. */
  lemma FlushDrops<I>(c: Cache<I>, addr: Addr, size: Addr, k: int)
    requires addr + size < WORD && k in c && 0 <= 4 * k < WORD - 0x400
    ensures var first, r := 4 * k / 0x400 * 0x400, Flush(c, addr, size);
      && (k in r <==> first + 0x400 < addr || addr + size < first)
      && (k in r ==> r[k] == c[k])
  {
  }

  /** Which addresses of a range are covered: all, unless a sum wraps for the top sub-block or
      for a range that ends with the address space. */
  lemma FlushCovers(a: Addr, addr: Addr, size: Addr)
    requires addr <= a < addr + size <= WORD
    ensures Flushed(SubBase(a), addr, size) <==>
      && (SubBase(a) + SUB_BLOCK_SIZE < WORD || addr == 0)
      && (addr + size < WORD || SubBase(a) == 0)
  {
  }

  lemma Aligned(addr: Addr, i: nat)
    requires addr % SUB_BLOCK_SIZE == 0
    ensures Part(addr, i) % SUB_BLOCK_SIZE == 0
  {
  }

  lemma InBlock(sub: Addr, base: Addr)
    requires sub % SUB_BLOCK_SIZE == 0 && base % SUB_BLOCK_SIZE == 0
    requires base <= sub && (sub == base || sub < Wrap(base + BLOCK_SIZE))
    ensures var i := PartIndex(sub, base); 0 <= i < 4 && Part(base, i) == sub
  {
  }

  lemma WordIndex(a: Addr)
    ensures a / 4 == 256 * (a / SUB_BLOCK_SIZE) + Slot(a)
  {
    assert a == SUB_BLOCK_SIZE * (a / SUB_BLOCK_SIZE) + a % SUB_BLOCK_SIZE;
  }

  lemma SameWord(a: Addr, b: Addr)
    ensures a / 4 == b / 4 <==> SubBase(a) == SubBase(b) && Slot(a) == Slot(b)
  {
    WordIndex(a);
    WordIndex(b);
    assert SubBase(a) == SUB_BLOCK_SIZE * (a / SUB_BLOCK_SIZE) && SubBase(b) == SUB_BLOCK_SIZE * (b / SUB_BLOCK_SIZE);
  }
}
