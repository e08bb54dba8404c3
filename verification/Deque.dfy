/** ecs::vector and the ring-buffer deque built on it. */
module Deque {
  import opened Sequences

  // ---- vector -----------------------------------------------------------------

  ghost predicate IsPow2(n: nat) { n == 1 || (n > 1 && n % 2 == 0 && IsPow2(n / 2)) }

  /** The least power of two that is at least `val`. */
  method FindMemSize(val: nat) returns (ret: nat)
    ensures IsPow2(ret) && ret >= val && (ret == 1 || ret < 2 * val)
  {
    ret := 1;
    while ret < val
      invariant IsPow2(ret) && (ret == 1 || ret < 2 * val)
    {
      assert (ret * 2) / 2 == ret;
      ret := ret * 2;
    }
  }

  /** Two powers of two less than a factor of two apart are equal. */
  lemma {:induction false} Pow2Gap(a: nat, b: nat)
    requires IsPow2(a) && IsPow2(b) && a <= b < 2 * a
    ensures a == b
  {
    if a > 1 { Pow2Gap(a / 2, b / 2); }
  }

  /** Capacity after n push_backs into an empty vector, and elements copied on the way. */
  ghost function CapAfter(n: nat): nat {
    if n == 0 then 0
    else var c := CapAfter(n - 1); if n - 1 < c then c else if c == 0 then 2 else 2 * c
  }

  ghost function CopiesAfter(n: nat): nat {
    if n == 0 then 0
    else CopiesAfter(n - 1) + if n - 1 < CapAfter(n - 1) then 0 else n - 1
  }

  lemma {:induction false} CopiesAndCap(n: nat)
    requires n > 0
    ensures n <= CapAfter(n) && CopiesAfter(n) == CapAfter(n) - 2
    ensures CapAfter(n) == 2 || CapAfter(n) <= 2 * (n - 1)
  {
    if n > 1 { CopiesAndCap(n - 1); }
  }

  /** Doubling is amortised: n push_backs copy fewer than 2n elements in all. */
  lemma AmortisedPushBack(n: nat)
    ensures n > 0 ==> CopiesAfter(n) < 2 * n
  {
    if n > 0 { CopiesAndCap(n); }
  }

  class Vector<T(0)> {
    var size: nat
    var mem: array<T>                  // its length is cap_; no memory means length 0
    ghost var copied: nat

    ghost predicate Valid()
      reads this, mem
    {
      size <= mem.Length && (mem.Length == 0 || (mem.Length >= 2 && IsPow2(mem.Length)))
    }

    ghost function Elems(): seq<T>
      reads this, mem
      requires Valid()
    {
      mem[..size]
    }

    /** Only push_back has been called so far. */
    ghost predicate GrownByPushes()
      reads this, mem
    {
      mem.Length == CapAfter(size) && copied == CopiesAfter(size)
    }

    constructor ()
      ensures GrownByPushes()
      ensures Valid() && fresh(mem) && size == 0 && mem.Length == 0 && copied == 0
    {
      size, copied := 0, 0;
      mem := new T[0];
    }

    method ReallocateMemory(desire: nat)
      requires Valid() && size <= desire
      modifies this`mem, this`copied
      ensures Valid() && fresh(mem) && Elems() == old(Elems()) && copied == old(copied) + size
      ensures mem.Length >= desire && (mem.Length == 2 || mem.Length < 2 * desire)
    {
      var oldMem := mem;
      var cap := FindMemSize(desire);
      if cap < 2 { cap := 2; assert IsPow2(1); assert IsPow2(cap); }
      var newMem := new T[cap];
      forall i | 0 <= i < size { newMem[i] := oldMem[i]; }
      mem := newMem;
      copied := copied + size;
    }

    /** New cells are default-initialised, which for plain data leaves any value. */
    method Resize(n: nat)
      requires Valid()
      modifies this
      ensures Valid() && size == n && (if n <= old(mem.Length) then mem == old(mem) else fresh(mem))
      ensures if n <= old(size) then Elems() == old(Elems()[..n]) else Elems()[..old(size)] == old(Elems())
    {
      if n > mem.Length { ReallocateMemory(n); }
      size := n;
    }

    method PushBack(v: T)
      requires Valid()
      modifies this, mem
      ensures Valid() && Elems() == old(Elems()) + [v] && (mem == old(mem) || fresh(mem))
      ensures old(GrownByPushes()) ==> GrownByPushes()
      ensures old(size) < old(mem.Length) ==> mem == old(mem) && copied == old(copied)
      ensures old(size) == old(mem.Length) ==>
        mem.Length == (if old(mem.Length) == 0 then 2 else 2 * old(mem.Length)) && copied == old(copied + size)
    {
      if size + 1 > mem.Length {
        var n := mem.Length;
        ReallocateMemory(n * 2);
        if n > 0 {
          assert (2 * n) / 2 == n;
          if mem.Length != 2 { Pow2Gap(2 * n, mem.Length); }
        }
      }
      mem[size] := v;
      size := size + 1;
    }

    method PopBack()
      requires Valid()
      modifies this
      ensures Valid() && mem == old(mem)
      ensures Elems() == if old(size) == 0 then [] else old(Elems()[..size - 1])
    {
      Resize(if size > 0 then size - 1 else 0);
    }
  }

  // ---- in-place reversal ------------------------------------------------------

  /** `s` with the segment lo..hi reversed. */
  ghost function Flipped<T>(s: seq<T>, lo: nat, hi: nat): seq<T>
    requires lo <= hi <= |s|
  {
    s[..lo] + Reverse(s[lo..hi]) + s[hi..]
  }

  lemma FlippedAt<T>(s: seq<T>, lo: nat, hi: nat, k: nat)
    requires lo <= hi <= |s| && k < |s|
    ensures |Flipped(s, lo, hi)| == |s|
    ensures Flipped(s, lo, hi)[k] == if lo <= k < hi then s[lo + hi - 1 - k] else s[k]
  {
    if lo <= k < hi { ReverseAt(s[lo..hi], k - lo); }
  }

  /** invert_data: both ends inclusive. */
  method InvertData<T>(a: array<T>, p1: nat, p2: nat)
    requires p1 <= p2 < a.Length
    modifies a
    ensures a[..] == Flipped(old(a[..]), p1, p2 + 1)
  {
    var i, j := p1, p2;
    while i < j
      invariant p1 <= i <= j + 1 && i + j == p1 + p2
      invariant forall k :: 0 <= k < a.Length && (i <= k <= j || k < p1 || p2 < k) ==> a[k] == old(a[k])
      invariant forall k :: p1 <= k < i ==> a[k] == old(a[p1 + p2 - k]) && a[p1 + p2 - k] == old(a[k])
    {
      a[i], a[j] := a[j], a[i];
      i := i + 1;
      j := j - 1;
    }
    forall k | 0 <= k < a.Length ensures |Flipped(old(a[..]), p1, p2 + 1)| == a.Length && a[k] == Flipped(old(a[..]), p1, p2 + 1)[k] {
      FlippedAt(old(a[..]), p1, p2 + 1, k);
      if i <= k <= p2 && k != i { assert p1 <= p1 + p2 - k < i; }
    }
  }

  // ---- deque ------------------------------------------------------------------

  class Deque<T(0)> {
    var idxBegin: nat
    var idxEnd: nat
    const storage: Vector<T>

    ghost predicate Valid()
      reads this, storage, storage.mem
    {
      && storage.Valid()
      && (if storage.size == 0 then idxBegin == idxEnd == 0
          else idxBegin < storage.size && idxEnd < storage.size)
    }

    /** The queue, front first. */
    ghost function Contents(): seq<T>
      reads this, storage, storage.mem
      requires Valid()
    {
      Ring(storage.Elems(), idxBegin, idxEnd)
    }

    constructor ()
      ensures Valid() && Contents() == [] && fresh(storage) && fresh(storage.mem)
    {
      idxBegin, idxEnd := 0, 0;
      storage := new Vector<T>();
    }

    function Capacity(): nat
      reads this, storage
    {
      if storage.size == 0 then 0 else storage.size - 1
    }

    method Size() returns (n: nat)
      requires Valid()
      ensures n == |Contents()|
    {
      n := if idxEnd >= idxBegin then idxEnd - idxBegin else idxEnd + storage.size - idxBegin;
    }

    method Empty() returns (b: bool)
      requires Valid()
      ensures b == (Contents() == [])
    {
      var n := Size();
      b := n == 0;
    }

    method At(idx: nat) returns (v: T)
      requires Valid() && idx < |Contents()|
      ensures v == Contents()[idx]
    {
      var raw := (idxBegin + idx) % storage.size;
      Wrap(idxBegin + idx, storage.size);
      v := storage.mem[raw];
    }

    method Front() returns (v: T)
      requires Valid() && Contents() != []
      ensures v == Contents()[0]
    {
      v := storage.mem[idxBegin];
    }

    method PopFront()
      requires Valid() && Contents() != []
      modifies this
      ensures Valid() && Contents() == old(Contents())[1..]
    {
      Wrap(idxBegin + 1, storage.size);
      idxBegin := (idxBegin + 1) % storage.size;
    }

    /** A full ring rotated left by idxBegin, so that it starts at cell 0. */
    method NormalizeIdx()
      requires Valid() && storage.size > 0 && |Contents()| == storage.size - 1
      modifies this, storage.mem
      ensures Valid() && idxBegin == 0 && idxEnd == storage.size - 1 && Contents() == old(Contents())
    {
      if idxBegin == 0 { return; }
      ghost var cells := storage.mem[..];
      Rotate(storage.mem, idxBegin, storage.size);
      FullRing(cells, storage.mem[..], idxBegin, storage.size);
      idxBegin := 0;
      idxEnd := storage.size - 1;
    }

    method PushBack(val: T)
      requires Valid()
      modifies this, storage, storage.mem
      ensures Valid() && Contents() == old(Contents()) + [val]
      ensures storage.mem == old(storage.mem) || fresh(storage.mem)
    {
      var n := Size();
      if n == Capacity() {
        if storage.size > 0 { NormalizeIdx(); }
        Grow();
      }
      Put(val);
    }

    /** Room for one more: the new cell is the free one after the last. */
    method Grow()
      requires Valid() && idxBegin == 0 && |Contents()| == Capacity()
      modifies storage
      ensures Valid() && Contents() == old(Contents()) && |Contents()| < Capacity()
      ensures storage.mem == old(storage.mem) || fresh(storage.mem)
    {
      ghost var q, cells := Contents(), storage.Elems();
      storage.Resize(Capacity() + 2);
      assert storage.Elems()[..|cells|] == cells;
      assert Contents() == storage.Elems()[..|cells|][0..idxEnd];
    }

    method Put(val: T)
      requires Valid() && |Contents()| < Capacity()
      modifies this, storage.mem
      ensures Valid() && Contents() == old(Contents()) + [val] && storage.mem == old(storage.mem)
    {
      ghost var cells := storage.Elems();
      storage.mem[idxEnd] := val;
      assert storage.Elems() == cells[idxEnd := val];
      RingMore(cells, idxBegin, idxEnd, val);
      Wrap(idxEnd + 1, storage.size);
      idxEnd := (idxEnd + 1) % storage.size;
    }
  }

  /** The cells from b to e: one run, or two when they wrap. */
  ghost function Ring<T>(cells: seq<T>, b: nat, e: nat): seq<T>
    requires b <= |cells| && e <= |cells|
  {
    if b <= e then cells[b..e] else cells[b..] + cells[..e]
  }

  /** The free cell at e joins the end. */
  lemma RingMore<T>(cells: seq<T>, b: nat, e: nat, val: T)
    requires b < |cells| && e < |cells| && |Ring(cells, b, e)| < |cells| - 1
    ensures Ring(cells[e := val], b, if e + 1 < |cells| then e + 1 else 0) == Ring(cells, b, e) + [val]
  {
  }

  /** The three reversals of normalize_idx. */
  method Rotate<T>(a: array<T>, b: nat, n: nat)
    requires 0 < b < n <= a.Length
    modifies a
    ensures a[..] == old(a[b..n]) + old(a[..b]) + old(a[n..])
  {
    ghost var cells := a[..];
    assert cells[b..n] == a[b..n] && cells[..b] == a[..b] && cells[n..] == a[n..];
    InvertTwice(a, b, n);
    InvertData(a, 0, n - 1);
    RotateLeft(cells, b, n);
  }

  /** The first two: both parts, each in itself. */
  method InvertTwice<T>(a: array<T>, b: nat, n: nat)
    requires 0 < b < n <= a.Length
    modifies a
    ensures |Flipped(old(a[..]), 0, b)| == a.Length && a[..] == Flipped(Flipped(old(a[..]), 0, b), b, n)
  {
    InvertData(a, 0, b - 1);
    InvertData(a, b, n - 1);
  }

  /** A full ring that starts at b holds, after the rotation, the same queue from cell 0 on. */
  lemma FullRing<T>(cells: seq<T>, cells': seq<T>, b: nat, n: nat)
    requires 0 < b < n <= |cells| && cells' == cells[b..n] + cells[..b] + cells[n..]
    ensures |cells'| == |cells|
    ensures cells'[..n][0..n - 1] == cells[..n][b..] + cells[..n][..b - 1]
  {
  }

  lemma Wrap(x: nat, n: nat)
    requires 0 < n && x < 2 * n
    ensures x % n == if x < n then x else x - n
  {
  }

  /** The three reversals normalize_idx makes, on the first n cells, are a left rotation. */
  lemma RotateLeft<T>(cells: seq<T>, b: nat, n: nat)
    requires 0 < b < n <= |cells|
    ensures |Flipped(cells, 0, b)| == |cells| && |Flipped(Flipped(cells, 0, b), b, n)| == |cells|
    ensures Flipped(Flipped(Flipped(cells, 0, b), b, n), 0, n) == cells[b..n] + cells[..b] + cells[n..]
  {
    var x, y, z := cells[..b], cells[b..n], cells[n..];
    var c1 := Flipped(cells, 0, b);
    assert c1 == Reverse(x) + y + z by { assert cells[0..b] == x && cells[b..] == y + z && cells[..0] == []; }
    var c2 := Flipped(c1, b, n);
    assert c2 == Reverse(x) + Reverse(y) + z by { assert c1[..b] == Reverse(x) && c1[b..n] == y && c1[n..] == z; }
    assert c2[0..n] == Reverse(x) + Reverse(y) && c2[n..] == z;
    ThreeReversals(x, y);
  }
}
