/** Who frees a thread's stack: thread blocks own theirs, but copying a block copies the pointer,
    and erasing from the map of blocks copies the last one. */
module StackOwnership {
  import opened UnorderedMap

  /** A thread block's id and stack memory, 0 for none. */
  datatype Block = Block(id: int, stack: nat)

  /** sound: nothing has been freed that was not allocated. */
  datatype Heap = Heap(blocks: seq<Block>, inUse: set<nat>, sound: bool)

  /** The destructor of block i. */
  function Destroy(h: Heap, i: nat): (r: Heap)
    requires i < |h.blocks|
    ensures |r.blocks| == |h.blocks|
  {
    var p := h.blocks[i].stack;
    if p == 0 then h
    else Heap(h.blocks[i := h.blocks[i].(stack := 0)], h.inUse - {p}, h.sound && p in h.inUse)
  }

  /** Where a block is, or the length. */
  function Place(blocks: seq<Block>, id: int): (i: nat)
    ensures i <= |blocks| && (i < |blocks| ==> blocks[i].id == id)
    ensures forall j :: 0 <= j < i ==> blocks[j].id != id
  {
    if blocks == [] || blocks[0].id == id then 0 else 1 + Place(blocks[1..], id)
  }

  /** erase: destroys the entry, copies the last one over it, and drops the last one. */
  function Erase(h: Heap, id: int): Heap {
    var i := Place(h.blocks, id);
    if i == |h.blocks| then h else EraseAt(h, i)
  }

  function EraseAt(h: Heap, i: nat): Heap
    requires i < |h.blocks|
  {
    var last := |h.blocks| - 1;
    var d := Destroy(h, i);
    var e := Destroy(d.(blocks := d.blocks[i := d.blocks[last]]), last);
    e.(blocks := e.blocks[..last])
  }

  function EraseAll(h: Heap, ids: seq<int>): Heap
    decreases |ids|
  {
    if ids == [] then h else EraseAll(Erase(h, ids[0]), ids[1..])
  }

  ghost predicate DistinctIds(blocks: seq<Block>) {
    forall i, j :: 0 <= i < j < |blocks| ==> blocks[i].id != blocks[j].id
  }

  predicate Dangling(h: Heap, b: Block) { b.stack != 0 && b.stack !in h.inUse }

  ghost predicate Shared(h: Heap) {
    exists i, j :: 0 <= i < j < |h.blocks| && h.blocks[i].stack == h.blocks[j].stack != 0
  }

  /** A stack that has been freed twice, a block whose stack has been freed, or two blocks with
      one stack, as when the memory of a freed one is given out again. */
  ghost predicate Broken(h: Heap) {
    !h.sound || (exists i :: 0 <= i < |h.blocks| && Dangling(h, h.blocks[i])) || Shared(h)
  }

  /** Every block has its stack, and no other has it. */
  ghost predicate Owned(h: Heap) { DistinctIds(h.blocks) && !Broken(h) }

  /** The blocks that remain are the right ones. */
  lemma ErasesBlock(h: Heap, i: nat)
    requires i < |h.blocks|
    ensures EraseAt(h, i).blocks == SwapRemove(h.blocks, i)
    ensures EraseAt(h, i).inUse == h.inUse - ({h.blocks[i].stack, h.blocks[|h.blocks| - 1].stack} - {0})
  {
  }

  /** With every stack owned, erasing a block keeps it so exactly if the block is the last, or
      the last has no stack; otherwise the last block's stack is freed, and the block stays. */
  lemma EraseOwned(h: Heap, i: nat)
    requires Owned(h) && i < |h.blocks|
    ensures var r, last := Erase(h, h.blocks[i].id), h.blocks[|h.blocks| - 1];
      && (Owned(r) <==> i == |h.blocks| - 1 || last.stack == 0)
      && (!Owned(r) ==> last in r.blocks && Dangling(r, last))
  {
    var r, last := EraseAt(h, i), |h.blocks| - 1;
    PlaceOf(h, i);
    ErasesBlock(h, i);
    assert forall j :: 0 <= j < last ==> r.blocks[j] == if j == i then h.blocks[last] else h.blocks[j];
    if i < last { assert r.blocks[i] == h.blocks[last]; }
  }

  lemma PlaceOf(h: Heap, i: nat)
    requires Owned(h) && i < |h.blocks|
    ensures Place(h.blocks, h.blocks[i].id) == i
  {
  }

  /** Where block j is after block i has been erased. */
  function Moved(h: Heap, i: nat, j: nat): (k: nat)
    requires i < |h.blocks| && j < |h.blocks| && i != j
    ensures k < |SwapRemove(h.blocks, i)| && SwapRemove(h.blocks, i)[k] == h.blocks[j]
  {
    if j == |h.blocks| - 1 then i else j
  }

  lemma DanglingStays(h: Heap, i: nat, j: nat)
    requires h.sound && i < |h.blocks| && j < |h.blocks| && Dangling(h, h.blocks[j])
    ensures Broken(EraseAt(h, i))
  {
    ErasesBlock(h, i);
    if j != i && j != |h.blocks| - 1 { assert Dangling(EraseAt(h, i), EraseAt(h, i).blocks[Moved(h, i, j)]); }
  }

  lemma SharedStays(h: Heap, i: nat, j: nat, k: nat)
    requires i < |h.blocks| && j < k < |h.blocks| && h.blocks[j].stack == h.blocks[k].stack != 0
    ensures Broken(EraseAt(h, i))
  {
    ErasesBlock(h, i);
    var r, p, last := EraseAt(h, i), h.blocks[j].stack, |h.blocks| - 1;
    if p == h.blocks[i].stack || p == h.blocks[last].stack {
      assert Dangling(r, r.blocks[Moved(h, i, if j == i then k else j)]);
    } else {
      assert r.blocks[j].stack == r.blocks[k].stack;
    }
  }

  /** Nothing mends a broken heap: erasing a block whose stack has been freed, or moving it,
      frees the stack again. */
  lemma BrokenStays(h: Heap, id: int)
    requires Broken(h)
    ensures Broken(Erase(h, id))
  {
    var i := Place(h.blocks, id);
    if h.sound && i < |h.blocks| {
      if j :| 0 <= j < |h.blocks| && Dangling(h, h.blocks[j]) {
        DanglingStays(h, i, j);
      } else {
        var j, k :| 0 <= j < k < |h.blocks| && h.blocks[j].stack == h.blocks[k].stack != 0;
        SharedStays(h, i, j, k);
      }
    }
  }

  lemma {:induction false} BrokenAlways(h: Heap, ids: seq<int>)
    requires Broken(h)
    ensures Broken(EraseAll(h, ids))
    decreases |ids|
  {
    if ids != [] {
      BrokenStays(h, ids[0]);
      BrokenAlways(Erase(h, ids[0]), ids[1..]);
    }
  }

  /** Each block erased is the last of the table, or the last has no stack at that time. */
  predicate Harmless(blocks: seq<Block>, ids: seq<int>)
    decreases |ids|
  {
    ids == []
    || var i := Place(blocks, ids[0]);
       if i == |blocks| then Harmless(blocks, ids[1..])
       else (i == |blocks| - 1 || blocks[|blocks| - 1].stack == 0) && Harmless(SwapRemove(blocks, i), ids[1..])
  }

  /** Reclaiming a list of finished threads leaves every other thread its stack, and frees none
      twice, exactly if it is harmless. */
  lemma {:induction false} ReclaimOwned(h: Heap, ids: seq<int>)
    requires Owned(h)
    ensures Owned(EraseAll(h, ids)) <==> Harmless(h.blocks, ids)
    ensures !Harmless(h.blocks, ids) ==> Broken(EraseAll(h, ids))
    decreases |ids|
  {
    if ids != [] {
      var i := Place(h.blocks, ids[0]);
      if i == |h.blocks| {
        ReclaimOwned(h, ids[1..]);
      } else {
        EraseOwned(h, i);
        ErasesBlock(h, i);
        if Owned(Erase(h, ids[0])) {
          ReclaimOwned(Erase(h, ids[0]), ids[1..]);
        } else {
          BrokenAlways(Erase(h, ids[0]), ids[1..]);
        }
      }
    }
  }

  /** Each id erased is that of the last block at the time, or of none. */
  predicate FromTheBack(blocks: seq<Block>, ids: seq<int>)
    decreases |ids|
  {
    ids == []
    || (Place(blocks, ids[0]) == |blocks| && FromTheBack(blocks, ids[1..]))
    || (blocks != [] && Place(blocks, ids[0]) == |blocks| - 1 && FromTheBack(blocks[..|blocks| - 1], ids[1..]))
  }

  /** Where all blocks have a stack but the first, which is made before there is any thread, the
      list has to go through the table from the back. */
  lemma {:induction false} HarmlessFromTheBack(blocks: seq<Block>, ids: seq<int>)
    requires forall i :: 1 <= i < |blocks| ==> blocks[i].stack != 0
    ensures Harmless(blocks, ids) <==> FromTheBack(blocks, ids)
    decreases |ids|
  {
    if ids != [] {
      var i := Place(blocks, ids[0]);
      if i == |blocks| {
        HarmlessFromTheBack(blocks, ids[1..]);
      } else if i == |blocks| - 1 {
        assert SwapRemove(blocks, i) == blocks[..i];
        HarmlessFromTheBack(blocks[..i], ids[1..]);
      }
    }
  }

  // ---- runs -------------------------------------------------------------------

  /** What the scheduler does to the table: operator[] for an id, create with the stack that
      malloc gives it, and clearFinishedList. */
  datatype Event = Index(id: int) | Create(id: int, stack: nat) | Reclaim(ids: seq<int>)

  function Inserted(h: Heap, id: int): Heap {
    if Place(h.blocks, id) < |h.blocks| then h else h.(blocks := h.blocks + [Block(id, 0)])
  }

  /** The block of a new thread, inserted or assigned over one without a stack. */
  function Created(h: Heap, id: int, stack: nat): Heap {
    var i := Place(h.blocks, id);
    var block := Block(id, stack);
    h.(blocks := if i < |h.blocks| then h.blocks[i := block] else h.blocks + [block], inUse := h.inUse + {stack})
  }

  function Next(h: Heap, e: Event): Heap {
    match e
    case Index(id) => Inserted(h, id)
    case Create(id, stack) => Created(h, id, stack)
    case Reclaim(ids) => EraseAll(h, ids)
  }

  /** malloc gives out memory that is not in use, and a new id has had no stack yet. */
  predicate Possible(h: Heap, e: Event) {
    match e
    case Create(id, stack) =>
      stack != 0 && stack !in h.inUse
      && var i := Place(h.blocks, id); (i < |h.blocks| ==> h.blocks[i].stack == 0)
    case _ => true
  }

  function After(es: seq<Event>): Heap {
    if es == [] then Heap([], {}, true) else Next(After(es[..|es| - 1]), es[|es| - 1])
  }

  ghost predicate IsRun(es: seq<Event>) { forall k :: 0 <= k < |es| ==> Possible(After(es[..k]), es[k]) }

  ghost predicate AllHarmless(es: seq<Event>) {
    forall k :: 0 <= k < |es| && es[k].Reclaim? ==> Harmless(After(es[..k]).blocks, es[k].ids)
  }

  lemma CreatedOwned(h: Heap, id: int, stack: nat)
    requires Possible(h, Create(id, stack)) && Owned(h)
    ensures Owned(Created(h, id, stack))
  {
    var i, r := Place(h.blocks, id), Created(h, id, stack);
    assert forall j :: 0 <= j < |h.blocks| && j != i ==> r.blocks[j] == h.blocks[j];
  }

  /** Memory that is given out again gives the thread that still uses it company. */
  lemma CreatedDangling(h: Heap, id: int, stack: nat, j: nat)
    requires Possible(h, Create(id, stack)) && j < |h.blocks| && Dangling(h, h.blocks[j])
    ensures Broken(Created(h, id, stack))
  {
    var i, r := Place(h.blocks, id), Created(h, id, stack);
    assert i != j && r.blocks[j] == h.blocks[j];
    if h.blocks[j].stack != stack {
      assert Dangling(r, r.blocks[j]);
    } else if j < i {
      assert r.blocks[j].stack == r.blocks[i].stack;
    } else {
      assert r.blocks[i].stack == r.blocks[j].stack;
    }
  }

  lemma CreatedShared(h: Heap, id: int, stack: nat, j: nat, k: nat)
    requires Possible(h, Create(id, stack)) && j < k < |h.blocks| && h.blocks[j].stack == h.blocks[k].stack != 0
    ensures Broken(Created(h, id, stack))
  {
    var r := Created(h, id, stack);
    assert r.blocks[j].stack == r.blocks[k].stack;
  }

  lemma CreatedBroken(h: Heap, id: int, stack: nat)
    requires Possible(h, Create(id, stack)) && Broken(h)
    ensures Broken(Created(h, id, stack))
  {
    if h.sound {
      if j :| 0 <= j < |h.blocks| && Dangling(h, h.blocks[j]) {
        CreatedDangling(h, id, stack, j);
      } else {
        var j, k :| 0 <= j < k < |h.blocks| && h.blocks[j].stack == h.blocks[k].stack != 0;
        CreatedShared(h, id, stack, j, k);
      }
    }
  }

  lemma InsertedKeeps(h: Heap, id: int)
    ensures Owned(h) ==> Owned(Inserted(h, id))
    ensures Broken(h) ==> Broken(Inserted(h, id))
  {
    var r := Inserted(h, id);
    assert forall j :: 0 <= j < |h.blocks| ==> r.blocks[j] == h.blocks[j];
    if h.sound && Broken(h) {
      if j :| 0 <= j < |h.blocks| && Dangling(h, h.blocks[j]) {
        assert Dangling(r, r.blocks[j]);
      } else {
        var j, k :| 0 <= j < k < |h.blocks| && h.blocks[j].stack == h.blocks[k].stack != 0;
        assert r.blocks[j].stack == r.blocks[k].stack;
      }
    }
  }

  lemma NextKeeps(h: Heap, e: Event)
    requires Possible(h, e)
    ensures Owned(h) ==> (Owned(Next(h, e)) <==> e.Reclaim? ==> Harmless(h.blocks, e.ids))
    ensures Broken(h) || (Owned(h) && e.Reclaim? && !Harmless(h.blocks, e.ids)) ==> Broken(Next(h, e))
  {
    match e
    case Index(id) => InsertedKeeps(h, id);
    case Create(id, stack) =>
      if Owned(h) { CreatedOwned(h, id, stack); }
      if Broken(h) { CreatedBroken(h, id, stack); }
    case Reclaim(ids) =>
      if Owned(h) { ReclaimOwned(h, ids); }
      if Broken(h) { BrokenAlways(h, ids); }
  }

  /** Over every run from the empty table, every block has a stack of its own exactly if every
      reclaiming so far was harmless; otherwise the heap is broken. */
  lemma {:induction false} RunOwned(es: seq<Event>)
    requires IsRun(es)
    ensures Owned(After(es)) <==> AllHarmless(es)
    ensures !AllHarmless(es) ==> Broken(After(es))
    decreases |es|
  {
    if es != [] {
      var n := |es| - 1;
      var es1 := es[..n];
      RunPrefix(es, n);
      RunOwned(es1);
      NextKeeps(After(es1), es[n]);
    }
  }

  /** What holds of a run holds of what it begins with. */
  lemma RunPrefix(es: seq<Event>, n: nat)
    requires IsRun(es) && n < |es|
    ensures IsRun(es[..n]) && Possible(After(es[..n]), es[n])
    ensures n == |es| - 1 ==>
      (AllHarmless(es) <==> AllHarmless(es[..n]) && (es[n].Reclaim? ==> Harmless(After(es[..n]).blocks, es[n].ids)))
  {
    assert forall k :: 0 <= k < n ==> es[..n][..k] == es[..k] && es[..n][k] == es[k];
  }

  /** The first of two threads ends and is reclaimed: the second runs on a stack that has been
      freed.  Block 0 is made by the first setPreemption. */
  lemma FirstReclaimed(a: Block, b: Block)
    requires a.id != b.id && a.id != 0 && b.id != 0 && a.stack != 0 && b.stack != 0 && a.stack != b.stack
    ensures var es := BothCreated(a, b) + [Reclaim([a.id])];
      IsRun(es) && After(es).blocks == [Block(0, 0), b] && After(es).sound && Dangling(After(es), b)
  {
    TwoCreated(a, b);
    RunMore(BothCreated(a, b), Reclaim([a.id]));
    ErasesFirst(a, b);
  }

  function BothCreated(a: Block, b: Block): seq<Event> { [Index(0)] + [Create(a.id, a.stack)] + [Create(b.id, b.stack)] }

  lemma RunMore(es: seq<Event>, e: Event)
    requires IsRun(es) && Possible(After(es), e)
    ensures IsRun(es + [e]) && After(es + [e]) == Next(After(es), e)
  {
    var es1 := es + [e];
    assert es1[..|es|] == es;
    assert forall k :: 0 <= k < |es| ==> es1[..k] == es[..k];
  }

  lemma {:induction false} PlaceNew(blocks: seq<Block>, id: int)
    requires forall b :: b in blocks ==> b.id != id
    ensures Place(blocks, id) == |blocks|
  {
    if blocks != [] { PlaceNew(blocks[1..], id); }
  }

  lemma RunCreates(es: seq<Event>, h: Heap, b: Block)
    requires IsRun(es) && After(es) == h && b.stack != 0 && b.stack !in h.inUse && forall x :: x in h.blocks ==> x.id != b.id
    ensures var es1 := es + [Create(b.id, b.stack)];
      IsRun(es1) && After(es1) == Heap(h.blocks + [b], h.inUse + {b.stack}, h.sound)
  {
    PlaceNew(h.blocks, b.id);
    RunMore(es, Create(b.id, b.stack));
  }

  lemma TwoCreated(a: Block, b: Block)
    requires a.id != b.id && a.id != 0 && b.id != 0 && a.stack != 0 && b.stack != 0 && a.stack != b.stack
    ensures IsRun(BothCreated(a, b)) && After(BothCreated(a, b)) == Heap([Block(0, 0), a, b], {a.stack, b.stack}, true)
  {
    var es0: seq<Event> := [];
    RunMore(es0, Index(0));
    var es1 := [Index(0)];
    assert es0 + [Index(0)] == es1;
    RunCreates(es1, Heap([Block(0, 0)], {}, true), a);
    var es2 := es1 + [Create(a.id, a.stack)];
    var h := Heap([Block(0, 0)] + [a], {} + {a.stack}, true);
    RunCreates(es2, h, b);
    assert h.blocks + [b] == [Block(0, 0), a, b];
  }

  lemma ErasesFirst(a: Block, b: Block)
    requires a.id != b.id && a.id != 0 && b.id != 0 && a.stack != 0 && b.stack != 0 && a.stack != b.stack
    ensures var r := EraseAll(Heap([Block(0, 0), a, b], {a.stack, b.stack}, true), [a.id]);
      r.blocks == [Block(0, 0), b] && r.sound && Dangling(r, b)
  {
    var h := Heap([Block(0, 0), a, b], {a.stack, b.stack}, true);
    EraseOwned(h, 1);
    PlaceOf(h, 1);
    ErasesBlock(h, 1);
    assert EraseAll(h, [a.id]) == EraseAll(Erase(h, a.id), []);
  }

  class BlockMap {
    var storage: seq<Block>
    ghost var inUse: set<nat>
    ghost var sound: bool

    ghost function View(): Heap
      reads this
    {
      Heap(storage, inUse, sound)
    }

    constructor ()
      ensures View() == Heap([], {}, true)
    {
      storage, inUse, sound := [], {}, true;
    }

    /** free on a stack that is not null. */
    method DestroyBlock(i: nat)
      requires i < |storage|
      modifies this
      ensures View() == Destroy(old(View()), i)
    {
      var p := storage[i].stack;
      if p != 0 {
        sound := sound && p in inUse;
        inUse := inUse - {p};
        storage := storage[i := storage[i].(stack := 0)];
      }
    }

    /** operator[] */
    method IndexKey(id: int) returns (i: nat)
      modifies this
      ensures View() == Inserted(old(View()), id) && i == Place(View().blocks, id) < |View().blocks|
    {
      i := FindIf(storage, (b: Block) => b.id == id);
      FirstPlace(storage, id, i);
      if i == |storage| { storage := storage + [Block(id, 0)]; }
      FirstPlace(storage, id, i);
    }

    /** The table accesses of create; `stack` is what malloc returns. */
    method CreateBlock(id: int, stack: nat)
      requires Possible(View(), Create(id, stack))
      modifies this
      ensures View() == Created(old(View()), id, stack)
    {
      var i := IndexKey(id);
      assert storage[i] == Block(id, 0) && storage[i := Block(id, 0)] == storage;
      storage := storage[i := Block(id, 0)];
      i := IndexKey(id);
      inUse := inUse + {stack};
      storage := storage[i := Block(id, stack)];
    }

    method EraseKey(id: int)
      modifies this
      ensures View() == Erase(old(View()), id)
    {
      var i := FindIf(storage, (b: Block) => b.id == id);
      FirstPlace(storage, id, i);
      if i < |storage| { EraseBlock(i); }
    }

    method EraseBlock(i: nat)
      requires i < |storage|
      modifies this
      ensures View() == EraseAt(old(View()), i)
    {
      DestroyBlock(i);
      storage := storage[i := storage[|storage| - 1]];
      DestroyBlock(|storage| - 1);
      storage := storage[..|storage| - 1];
    }

    /** The loop of clearFinishedList. */
    method Reclaim(ids: seq<int>)
      modifies this
      ensures View() == EraseAll(old(View()), ids)
    {
      var k := 0;
      while k < |ids|
        invariant k <= |ids| && EraseAll(View(), ids[k..]) == EraseAll(old(View()), ids)
      {
        assert ids[k..][0] == ids[k] && ids[k..][1..] == ids[k + 1..];
        EraseKey(ids[k]);
        k := k + 1;
      }
    }
  }

  lemma FirstPlace(blocks: seq<Block>, id: int, i: nat)
    requires i <= |blocks| && (i < |blocks| ==> blocks[i].id == id) && forall j :: 0 <= j < i ==> blocks[j].id != id
    ensures Place(blocks, id) == i
  {
  }
}
