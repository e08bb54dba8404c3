/** The registers of one DMA channel and the bytes it moves, increment by increment, on any
    memory.

    Memory is what loads and stores make of it: an Access says whether a load or a store of some
    bytes at an address returns, and Bytes what there is at each address.  A device refuses a
    range or a part of it, and what matters of it is that a range can be accessed exactly if its
    parts can; Splits says so of a set of ranges, because at the borders of a device it need not
    hold.  Going is a channel with some bytes to go and no error so far.  As long as what is left
    can be accessed, every increment leaves less, and from the first increment that meets an
    error on nothing changes any more.  Midway adds the bytes: the source still holds what it
    held at the start, and so does the destination, for as many bytes as have been moved. */
module DmaEnds {
  import opened MachineWords
  import opened DmaMemory
  import opened DmaChannels
  import opened Dma

  /** Whether a load or store of n bytes at an address returns, rather than throws. */
  type Access = (Addr, Addr) -> bool

  /** The registers of a channel after an increment. */
  function Next(loads: Access, stores: Access, c: Channel): Channel {
    if !IsActive(c.status) then c
    else if !loads(c.nextSource, Amount(c)) then c.(status := SetBit(c.status, SOURCE_ERROR))
    else if !stores(c.nextDestination, Amount(c)) then c.(status := SetBit(c.status, DESTINATION_ERROR))
    else AfterCopy(c).0
  }

  /** After n increments. */
  function After(loads: Access, stores: Access, c: Channel, n: nat): Channel
    decreases n
  {
    if n == 0 then c else After(loads, stores, Next(loads, stores, c), n - 1)
  }

  /** Ranges, as address and size. */
  type Ranges = iset<(Addr, nat)>

  /** A range in this set is accessible exactly if its parts are, and what follows an accessible
      part is in the set too. */
  ghost predicate Splits(ok: Access, ranges: Ranges) {
    forall a, n, m :: 0 < n && 0 < m && n + m < SIZE_LIMIT && (a, n + m) in ranges ==> SplitsAt(ok, ranges, a, n, m)
  }

  ghost predicate SplitsAt(ok: Access, ranges: Ranges, a: Addr, n: Addr, m: Addr)
    requires n + m < SIZE_LIMIT
  {
    (ok(a, n + m) <==> ok(a, n) && ok(Plus(a, n), m)) && (ok(a, n) ==> (Plus(a, n), m) in ranges)
  }

  predicate BothOk(loads: Access, stores: Access, c: Channel, size: Addr) {
    loads(c.nextSource, size) && stores(c.nextDestination, size)
  }

  /** A channel with `left` bytes to go and no error so far. */
  predicate Going(c: Channel, left: nat) {
    && 0 < left < SIZE_LIMIT && c.status == ACTIVE + left
    && (c.uint32Transfer ==> WordAligned(c.nextSource, c.nextDestination, left))
  }

  lemma {:induction false} AfterInactive(loads: Access, stores: Access, c: Channel, n: nat)
    requires !IsActive(c.status)
    ensures After(loads, stores, c, n) == c
    decreases n
  {
    if n > 0 { AfterInactive(loads, stores, c, n - 1); }
  }

  lemma ErrorStays(loads: Access, stores: Access, c: Channel)
    requires IsActive(c.status) && !BothOk(loads, stores, c, Amount(c))
    ensures var d := Next(loads, stores, c); IsActive(d.status) && !BothOk(loads, stores, d, Amount(d))
  {
    ErrorBit(c.status, SOURCE_ERROR);
    ErrorBit(c.status, DESTINATION_ERROR);
  }

  /** An error is for ever. */
  lemma {:induction false} AfterError(loads: Access, stores: Access, c: Channel, n: nat)
    requires IsActive(c.status) && !BothOk(loads, stores, c, Amount(c))
    ensures IsActive(After(loads, stores, c, n).status)
    decreases n
  {
    if n > 0 {
      ErrorStays(loads, stores, c);
      AfterError(loads, stores, Next(loads, stores, c), n - 1);
    }
  }

  /** The registers after an increment that stays in range. */
  lemma GoingOn(c: Channel, left: nat)
    requires Going(c, left)
    ensures 0 < Amount(c) <= left
    ensures Amount(c) == left ==> !IsActive(AfterCopy(c).0.status) && AfterCopy(c).1
    ensures Amount(c) < left ==> Goes(c, AfterCopy(c).0, left)
  {
    ActiveSize(left);
    ActiveSize(left - Amount(c));
  }

  lemma StepCounted(c: Channel, left: nat)
    requires Going(c, left) && Amount(c) <= left
    ensures Steps(c.nextDestination, left) == 1 + Steps(Plus(c.nextDestination, Amount(c)), left - Amount(c))
  {
    ActiveSize(left);
  }

  predicate Goes(c: Channel, d: Channel, left: nat)
    requires Amount(c) < left
  {
    && Going(d, left - Amount(c))
    && d.nextSource == Plus(c.nextSource, Amount(c)) && d.nextDestination == Plus(c.nextDestination, Amount(c))
  }

  /** What the increment leaves is in range exactly if all of it was. */
  lemma RestOk(loads: Access, stores: Access, l: Ranges, s: Ranges, c: Channel, d: Channel, left: nat)
    requires Splits(loads, l) && Splits(stores, s) && (c.nextSource, left) in l && (c.nextDestination, left) in s
    requires 0 < Amount(c) < left < SIZE_LIMIT && Goes(c, d, left) && BothOk(loads, stores, c, Amount(c))
    ensures (d.nextSource, left - Amount(c)) in l && (d.nextDestination, left - Amount(c)) in s
    ensures BothOk(loads, stores, c, left) <==> BothOk(loads, stores, d, left - Amount(c))
  {
    var n, m := Amount(c), left - Amount(c);
    assert SplitsAt(loads, l, c.nextSource, n, m) && SplitsAt(stores, s, c.nextDestination, n, m);
  }

  lemma NotOk(loads: Access, stores: Access, l: Ranges, s: Ranges, c: Channel, left: nat)
    requires Splits(loads, l) && Splits(stores, s) && (c.nextSource, left) in l && (c.nextDestination, left) in s
    requires 0 < Amount(c) <= left < SIZE_LIMIT && !BothOk(loads, stores, c, Amount(c))
    ensures !BothOk(loads, stores, c, left)
  {
    if Amount(c) < left {
      var n, m := Amount(c), left - Amount(c);
      assert SplitsAt(loads, l, c.nextSource, n, m) && SplitsAt(stores, s, c.nextDestination, n, m);
    }
  }

  /** With `left` bytes to go the channel is inactive after n increments exactly if all that is
      left can be accessed and n is at least the number of steps. */
  lemma {:induction false} GoingEnds(loads: Access, stores: Access, l: Ranges, s: Ranges, c: Channel, left: nat, n: nat)
    requires Splits(loads, l) && Splits(stores, s) && (c.nextSource, left) in l && (c.nextDestination, left) in s
    requires Going(c, left)
    ensures !IsActive(After(loads, stores, c, n).status) <==>
      BothOk(loads, stores, c, left) && n >= Steps(c.nextDestination, left)
    decreases n
  {
    GoingOn(c, left);
    StepCounted(c, left);
    var d := Next(loads, stores, c);
    if !BothOk(loads, stores, c, Amount(c)) {
      AfterError(loads, stores, c, n);
      NotOk(loads, stores, l, s, c, left);
    } else if n > 0 && Amount(c) == left {
      AfterInactive(loads, stores, d, n - 1);
    } else if n > 0 {
      RestOk(loads, stores, l, s, c, d, left);
      GoingEnds(loads, stores, l, s, d, left - Amount(c), n - 1);
    }
  }

  lemma CommandGoes(c: Channel, val: Addr)
    requires !IsActive(c.status) && IsActive(val) && SizeOf(val) != 0
    ensures CommandStore(c, val).taken && Going(CommandStore(c, val).channel, SizeOf(val))
    ensures var d := CommandStore(c, val).channel; d.nextSource == c.source && d.nextDestination == c.destination
  {
  }

  // ---- runs without end -------------------------------------------------------

  /** One increment after the other, while nothing is stored to the channel. */
  ghost predicate Endless(loads: Access, stores: Access, run: nat -> Channel) {
    forall k: nat :: SameTransfer(Next(loads, stores, run(k)), run(k + 1))
  }

  lemma NextSame(loads: Access, stores: Access, c: Channel, d: Channel)
    requires SameTransfer(c, d)
    ensures SameTransfer(Next(loads, stores, c), Next(loads, stores, d))
  {
  }

  lemma {:induction false} AfterOneMore(loads: Access, stores: Access, c: Channel, n: nat)
    ensures After(loads, stores, c, n + 1) == Next(loads, stores, After(loads, stores, c, n))
    decreases n
  {
    if n > 0 { AfterOneMore(loads, stores, Next(loads, stores, c), n - 1); }
  }

  lemma {:induction false} RunAfter(loads: Access, stores: Access, run: nat -> Channel, n: nat)
    requires Endless(loads, stores, run)
    ensures SameTransfer(After(loads, stores, run(0), n), run(n))
    decreases n
  {
    if n > 0 {
      RunAfter(loads, stores, run, n - 1);
      AfterOneMore(loads, stores, run(0), n - 1);
      NextSame(loads, stores, After(loads, stores, run(0), n - 1), run(n - 1));
      assert SameTransfer(Next(loads, stores, run(n - 1)), run(n - 1 + 1));
    }
  }

  // ---- what a transfer copies -------------------------------------------------

  /** The bytes of all devices, by address. */
  type Bytes = Addr -> Byte

  /** The byte at an address after n bytes have been loaded and stored. */
  function CopiedAt(m: Bytes, from: Addr, into: Addr, n: Addr, a: Addr): Byte {
    if Minus(a, into) < n then m(Plus(from, Minus(a, into))) else m(a)
  }

  function Copied(m: Bytes, from: Addr, into: Addr, n: Addr): Bytes { (a: Addr) => CopiedAt(m, from, into, n, a) }

  /** The increment makes the channel's interrupt pending. */
  predicate Raises(loads: Access, stores: Access, c: Channel) {
    IsActive(c.status) && (BothOk(loads, stores, c, Amount(c)) ==> AfterCopy(c).1)
  }

  datatype State = State(bytes: Bytes, channel: Channel)

  /** The bytes after an increment. */
  function NextBytes(loads: Access, stores: Access, s: State): Bytes {
    var c := s.channel;
    if IsActive(c.status) && BothOk(loads, stores, c, Amount(c)) then Copied(s.bytes, c.nextSource, c.nextDestination, Amount(c))
    else s.bytes
  }

  predicate SameBytes(m: Bytes, m1: Bytes, a: Addr, n: Addr) { forall i: Addr :: i < n ==> m1(Plus(a, i)) == m(Plus(a, i)) }

  /** One increment after the other.  In between anything may be stored elsewhere, but not to the
      two regions, nor to the channel. */
  ghost predicate CopyRun(loads: Access, stores: Access, run: nat -> State, src: Addr, dst: Addr, n: Addr) {
    forall k: nat :: CopyStep(loads, stores, run(k), run(k + 1), src, dst, n)
  }

  predicate CopyStep(loads: Access, stores: Access, s: State, s1: State, src: Addr, dst: Addr, n: Addr) {
    && SameTransfer(Next(loads, stores, s.channel), s1.channel)
    && SameBytes(NextBytes(loads, stores, s), s1.bytes, src, n) && SameBytes(NextBytes(loads, stores, s), s1.bytes, dst, n)
  }

  lemma CopyStepAt(loads: Access, stores: Access, run: nat -> State, src: Addr, dst: Addr, n: Addr, k: nat)
    requires CopyRun(loads, stores, run, src, dst, n) && k > 0
    ensures CopyStep(loads, stores, run(k - 1), run(k), src, dst, n)
  {
    assert CopyStep(loads, stores, run(k - 1), run(k - 1 + 1), src, dst, n);
  }

  predicate RegionsApart(src: Addr, dst: Addr, n: Addr) { forall i: Addr, j: Addr :: i < n && j < n ==> Plus(src, i) != Plus(dst, j) }

  /** The source still holds what it held in m0, and so does the destination for `done` bytes. */
  predicate HasCopied(m0: Bytes, m: Bytes, src: Addr, dst: Addr, n: Addr, done: nat) {
    SameBytes(m0, m, src, n) && forall i: Addr :: i < done && i < n ==> m(Plus(dst, i)) == m0(Plus(src, i))
  }

  lemma PlusPlus(a: Addr, i: Addr, j: Addr)
    requires i + j < WORD
    ensures Plus(Plus(a, i), j) == Plus(a, i + j)
  {
  }

  lemma InWindow(a: Addr, done: Addr, n: Addr, i: Addr)
    requires i < SIZE_LIMIT && done < SIZE_LIMIT && n <= 4
    ensures Minus(Plus(a, i), Plus(a, done)) < n <==> done <= i < done + n
    ensures done <= i ==> Minus(Plus(a, i), Plus(a, done)) == i - done
  {
  }

  lemma OutsideWindow(src: Addr, dst: Addr, size: Addr, done: Addr, n: Addr, i: Addr)
    requires RegionsApart(src, dst, size) && done + n <= size < SIZE_LIMIT && n <= 4 && i < size
    ensures Minus(Plus(src, i), Plus(dst, done)) >= n
  {
    var t := Minus(Plus(src, i), Plus(dst, done));
    if t < n {
      PlusPlus(dst, done, t);
    }
  }

  /** Copying the next bytes. */
  lemma CopiesMore(m0: Bytes, m: Bytes, src: Addr, dst: Addr, size: Addr, done: Addr, n: Addr)
    requires RegionsApart(src, dst, size) && done + n <= size < SIZE_LIMIT && n <= 4 && HasCopied(m0, m, src, dst, size, done)
    ensures HasCopied(m0, Copied(m, Plus(src, done), Plus(dst, done), n), src, dst, size, done + n)
  {
    var m1 := Copied(m, Plus(src, done), Plus(dst, done), n);
    forall i: Addr | i < size ensures m1(Plus(src, i)) == m0(Plus(src, i)) {
      OutsideWindow(src, dst, size, done, n, i);
    }
    forall i: Addr | i < done + n ensures m1(Plus(dst, i)) == m0(Plus(src, i)) {
      InWindow(dst, done, n, i);
      if done <= i { PlusPlus(src, done, i - done); }
    }
  }

  lemma CopiedStays(m0: Bytes, m: Bytes, m1: Bytes, src: Addr, dst: Addr, n: Addr, done: nat)
    requires HasCopied(m0, m, src, dst, n, done) && SameBytes(m, m1, src, n) && SameBytes(m, m1, dst, n)
    ensures HasCopied(m0, m1, src, dst, n, done)
  {
  }

  /** A transfer under way, `done` bytes into it. */
  ghost predicate Midway(loads: Access, stores: Access, l: Ranges, s: Ranges, m0: Bytes, st: State, src: Addr, dst: Addr, size: Addr,
                         done: nat)
  {
    && done < size < SIZE_LIMIT && Going(st.channel, size - done)
    && st.channel.nextSource == Plus(src, done) && st.channel.nextDestination == Plus(dst, done)
    && (st.channel.nextSource, size - done) in l && (st.channel.nextDestination, size - done) in s
    && BothOk(loads, stores, st.channel, size - done)
    && HasCopied(m0, st.bytes, src, dst, size, done)
  }

  /** One increment of a transfer under way. */
  lemma MidwayMoves(loads: Access, stores: Access, l: Ranges, s: Ranges, m0: Bytes, st: State, src: Addr, dst: Addr, size: Addr,
                    done: nat)
    requires Splits(loads, l) && Splits(stores, s) && RegionsApart(src, dst, size)
    requires Midway(loads, stores, l, s, m0, st, src, dst, size, done)
    ensures var c := st.channel; var n := Amount(c); var d, m1 := Next(loads, stores, c), NextBytes(loads, stores, st);
      && 0 < n <= size - done && HasCopied(m0, m1, src, dst, size, done + n)
      && (n == size - done ==> !IsActive(d.status) && Raises(loads, stores, c))
      && (n < size - done ==> Midway(loads, stores, l, s, m0, State(m1, d), src, dst, size, done + n))
  {
    var c := st.channel;
    var n := Amount(c);
    GoingOn(c, size - done);
    FirstOk(loads, stores, l, s, c, size - done);
    CopiesMore(m0, st.bytes, src, dst, size, done, n);
    if n < size - done {
      var d := Next(loads, stores, c);
      RestOk(loads, stores, l, s, c, d, size - done);
      PlusPlus(src, done, n);
      PlusPlus(dst, done, n);
    }
  }

  lemma FirstOk(loads: Access, stores: Access, l: Ranges, s: Ranges, c: Channel, left: nat)
    requires Splits(loads, l) && Splits(stores, s) && (c.nextSource, left) in l && (c.nextDestination, left) in s
    requires 0 < Amount(c) <= left < SIZE_LIMIT && BothOk(loads, stores, c, left)
    ensures BothOk(loads, stores, c, Amount(c))
  {
    if !BothOk(loads, stores, c, Amount(c)) { NotOk(loads, stores, l, s, c, left); }
  }

  /** The same, with what else is stored in between. */
  lemma MidwayStep(loads: Access, stores: Access, l: Ranges, s: Ranges, m0: Bytes, st: State, st1: State, src: Addr, dst: Addr,
                   size: Addr, done: nat) returns (more: nat)
    requires Splits(loads, l) && Splits(stores, s) && RegionsApart(src, dst, size)
    requires Midway(loads, stores, l, s, m0, st, src, dst, size, done) && CopyStep(loads, stores, st, st1, src, dst, size)
    ensures done < more <= size && HasCopied(m0, st1.bytes, src, dst, size, more)
    ensures Steps(Plus(dst, done), size - done) == 1 + Steps(Plus(dst, more), size - more)
    ensures more == size ==> !IsActive(st1.channel.status) && Raises(loads, stores, st.channel)
    ensures more < size ==> Midway(loads, stores, l, s, m0, st1, src, dst, size, more)
  {
    more := done + Amount(st.channel);
    var m1 := NextBytes(loads, stores, st);
    MidwayMoves(loads, stores, l, s, m0, st, src, dst, size, done);
    MidwayCounted(loads, stores, l, s, m0, st, src, dst, size, done);
    CopiedStays(m0, m1, st1.bytes, src, dst, size, more);
    if more < size { MidwaySame(loads, stores, l, s, m0, State(m1, Next(loads, stores, st.channel)), st1, src, dst, size, more); }
  }

  lemma MidwayCounted(loads: Access, stores: Access, l: Ranges, s: Ranges, m0: Bytes, st: State, src: Addr, dst: Addr, size: Addr,
                      done: nat)
    requires Midway(loads, stores, l, s, m0, st, src, dst, size, done) && 0 < Amount(st.channel) <= size - done
    ensures var more := done + Amount(st.channel);
      Steps(Plus(dst, done), size - done) == 1 + Steps(Plus(dst, more), size - more)
  {
    StepCounted(st.channel, size - done);
    PlusPlus(dst, done, Amount(st.channel));
  }

  lemma MidwaySame(loads: Access, stores: Access, l: Ranges, s: Ranges, m0: Bytes, st: State, st1: State, src: Addr, dst: Addr,
                   size: Addr, done: nat)
    requires Midway(loads, stores, l, s, m0, st, src, dst, size, done) && SameTransfer(st.channel, st1.channel)
    requires HasCopied(m0, st1.bytes, src, dst, size, done)
    ensures Midway(loads, stores, l, s, m0, st1, src, dst, size, done)
  {
  }

  lemma {:induction false} MidwayAt(loads: Access, stores: Access, l: Ranges, s: Ranges, run: nat -> State, src: Addr, dst: Addr,
                                    size: Addr, k: nat) returns (done: nat)
    requires Splits(loads, l) && Splits(stores, s) && RegionsApart(src, dst, size)
    requires CopyRun(loads, stores, run, src, dst, size)
    requires Midway(loads, stores, l, s, run(0).bytes, run(0), src, dst, size, 0) && k < Steps(dst, size)
    ensures Midway(loads, stores, l, s, run(0).bytes, run(k), src, dst, size, done)
    ensures Steps(Plus(dst, done), size - done) == Steps(dst, size) - k
    decreases k
  {
    if k == 0 {
      done := 0;
    } else {
      done := MidwayAt(loads, stores, l, s, run, src, dst, size, k - 1);
      CopyStepAt(loads, stores, run, src, dst, size, k);
      done := MidwayNext(loads, stores, l, s, run(0).bytes, run(k - 1), run(k), src, dst, size, done);
    }
  }

  lemma MidwayNext(loads: Access, stores: Access, l: Ranges, s: Ranges, m0: Bytes, st: State, st1: State, src: Addr, dst: Addr,
                   size: Addr, done: nat) returns (more: nat)
    requires Splits(loads, l) && Splits(stores, s) && RegionsApart(src, dst, size)
    requires Midway(loads, stores, l, s, m0, st, src, dst, size, done) && CopyStep(loads, stores, st, st1, src, dst, size)
    requires Steps(Plus(dst, done), size - done) > 1
    ensures Midway(loads, stores, l, s, m0, st1, src, dst, size, more)
    ensures Steps(Plus(dst, more), size - more) == Steps(Plus(dst, done), size - done) - 1
  {
    more := MidwayStep(loads, stores, l, s, m0, st, st1, src, dst, size, done);
    NoStepsLeft(Plus(dst, more), size - more);
  }

  lemma NoStepsLeft(a: Addr, left: nat)
    ensures Steps(a, left) > 0 <==> left > 0
  {
  }
}
