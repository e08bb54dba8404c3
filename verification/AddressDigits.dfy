/** 32-bit addresses as numbers of eight digits of four bits each.

    The source of the memory controller shifts and masks; here shifts are multiplication and
    division by sixteen, one digit at a time, and a mask is a remainder.  Shl and Shr move an
    address up and down by whole digits, Digit picks one, Same says that two addresses agree
    above some digit, and Truncate clears everything below it.  The lemmas say how these act on
    sums and differences, and what follows for regions that are aligned to a digit: whether an
    address lies in a region, and which digit its offset from the start of the region has,
    depends on the digits of the address alone.  The proofs go by induction on the number of
    digits, so that nothing depends on powers or on products of variables. */
module AddressDigits {
  import opened MachineWords

  predicate IsBits(n: nat) { n <= 32 && n % 4 == 0 }

  /** x << n */
  function Shl(x: int, n: nat): int {
    if n < 4 then x else 16 * Shl(x, n - 4)
  }

  /** 1 << n */
  function Pow(n: nat): int { Shl(1, n) }

  /** x >> n */
  function Shr(x: Addr, n: nat): Addr {
    if n < 4 then x else Shr(x, n - 4) / 16
  }

  /** The top four of the low n bits. */
  function Digit(x: Addr, n: nat): (d: int)
    requires n >= 4
    ensures 0 <= d < 16
  {
    Shr(x, n - 4) % 16
  }

  /** a and b agree above their low n bits. */
  predicate Same(a: Addr, b: Addr, n: nat) { Shr(a, n) == Shr(b, n) }

  /** addr & (~0 << n) */
  function Truncate(a: Addr, n: nat): (t: Addr)
    ensures t <= a
  {
    Decompose(a, n);
    ShlSign(Shr(a, n), n);
    Shl(Shr(a, n), n)
  }

  predicate Aligned(x: Addr, n: nat) { Truncate(x, n) == x }

  lemma {:induction false} ShlAdd(x: int, y: int, n: nat)
    ensures Shl(x + y, n) == Shl(x, n) + Shl(y, n)
  {
    if n >= 4 { ShlAdd(x, y, n - 4); }
  }

  lemma {:induction false} ShlSign(x: int, n: nat)
    ensures Pow(n) >= 1 && Shl(0, n) == 0
    ensures x >= 1 ==> Shl(x, n) >= Pow(n)
    ensures x <= -1 ==> Shl(x, n) <= -Pow(n)
  {
    if n >= 4 { ShlSign(x, n - 4); }
  }

  lemma ShlDifference(x: int, y: int, n: nat)
    ensures Shl(x - y, n) == Shl(x, n) - Shl(y, n)
    ensures x > y ==> Shl(x, n) >= Shl(y, n) + Pow(n)
    ensures x < y ==> Shl(x, n) + Pow(n) <= Shl(y, n)
  {
    ShlAdd(x - y, y, n);
    ShlSign(x - y, n);
  }

  lemma {:induction false} ShlDigit(x: int, d: int, n: nat)
    ensures Shl(16 * x + d, n) == 16 * Shl(x, n) + Shl(d, n)
  {
    if n >= 4 { ShlDigit(x, d, n - 4); }
  }

  lemma {:induction false} Decompose(x: Addr, n: nat)
    ensures 0 <= x - Shl(Shr(x, n), n) < Pow(n)
  {
    if n >= 4 {
      Decompose(x, n - 4);
      var t, d := Shr(x, n), Digit(x, n);
      assert Shr(x, n - 4) == 16 * t + d;
      ShlDigit(t, d, n - 4);
      ShlDigit(1, 0, n - 4);
      ShlDifference(16, d, n - 4);
      ShlSign(d, n - 4);
    }
  }

  lemma SameStep(a: Addr, b: Addr, n: nat)
    requires n >= 4
    ensures Same(a, b, n - 4) <==> Same(a, b, n) && Digit(a, n) == Digit(b, n)
  {
  }

  lemma {:induction false} SameUp(a: Addr, b: Addr, n: nat, m: nat)
    requires IsBits(n) && IsBits(m) && n <= m && Same(a, b, n)
    ensures Same(a, b, m)
    decreases m - n
  {
    if n < m {
      SameStep(a, b, n + 4);
      SameUp(a, b, n + 4, m);
    }
  }

  lemma SameBelow(a: Addr, b: Addr, n: nat, m: nat)
    requires IsBits(n) && IsBits(m) && n < m && Same(a, b, n)
    ensures Same(a, b, m) && Digit(a, m) == Digit(b, m)
  {
    SameUp(a, b, n, m - 4);
    SameStep(a, b, m);
  }

  lemma AlignedStep(x: Addr, n: nat)
    requires n >= 4 && Aligned(x, n)
    ensures Aligned(x, n - 4) && Digit(x, n) == 0
  {
    Decompose(x, n - 4);
    var t, d := Shr(x, n), Digit(x, n);
    assert Shr(x, n - 4) == 16 * t + d;
    ShlDigit(t, d, n - 4);
    ShlSign(d, n - 4);
  }

  lemma {:induction false} AlignedDown(x: Addr, n: nat, m: nat)
    requires IsBits(n) && IsBits(m) && m <= n && Aligned(x, n)
    ensures Aligned(x, m)
    decreases n
  {
    if m < n {
      AlignedStep(x, n);
      AlignedDown(x, n - 4, m);
    }
  }

  lemma {:induction false} ShlTwice(x: int, n: nat, m: nat)
    requires n % 4 == 0 && m % 4 == 0
    ensures Shl(Shl(x, n), m) == Shl(x, n + m)
  {
    if m >= 4 { ShlTwice(x, n, m - 4); }
  }

  lemma PowWord()
    ensures Pow(32) == WORD
  {
    assert Pow(16) == 0x1_0000;
    assert Shl(0x1_0000, 16) == WORD;
    ShlTwice(1, 16, 16);
  }

  /** An aligned region ends inside the address space. */
  lemma RegionEnds(base: Addr, n: nat)
    requires IsBits(n) && Aligned(base, n)
    ensures base + Pow(n) <= WORD
  {
    PowWord();
    ShlTwice(1, 32 - n, n);
    ShlDifference(Shr(base, n), Pow(32 - n), n);
  }

  lemma OffsetRange(base: Addr, n: nat, a: Addr)
    requires IsBits(n) && Aligned(base, n)
    ensures Same(a, base, n) <==> Wrap(a - base) < Pow(n)
    ensures Same(a, base, n) ==> Wrap(a - base) == a - base
  {
    RegionEnds(base, n);
    Decompose(a, n);
    ShlDifference(Shr(a, n), Shr(base, n), n);
    assert Wrap(a - base) == if base <= a then a - base else a - base + WORD;
  }

  lemma {:induction false} ShrDifference(base: Addr, a: Addr, n: nat)
    requires Aligned(base, n) && base <= a
    ensures Shr(a - base, n) == Shr(a, n) - Shr(base, n)
  {
    if n >= 4 {
      AlignedStep(base, n);
      ShrDifference(base, a, n - 4);
    }
  }

  lemma DigitDifference(base: Addr, a: Addr, m: nat)
    requires m >= 4 && Aligned(base, m) && base <= a
    ensures Digit(a - base, m) == Digit(a, m)
  {
    AlignedStep(base, m);
    ShrDifference(base, a, m - 4);
    SameDigit(Shr(a, m - 4), Shr(base, m - 4));
  }

  lemma SameDigit(x: int, y: int)
    requires y % 16 == 0
    ensures (x - y) % 16 == x % 16
  {
  }

  lemma OffsetDigit(base: Addr, n: nat, a: Addr, m: nat)
    requires IsBits(n) && Aligned(base, n) && IsBits(m) && 4 <= m <= n && Same(a, base, n)
    ensures Digit(Wrap(a - base), m) == Digit(a, m)
  {
    OffsetRange(base, n, a);
    AlignedDown(base, n, m);
    DigitDifference(base, a, m);
  }

  lemma {:induction false} ShrShl(k: Addr, n: nat)
    requires Shl(k, n) < WORD
    ensures 0 <= Shl(k, n) && Shr(Shl(k, n), n) == k
  {
    ShlSign(k, n);
    if n >= 4 {
      ShlSign(k, n - 4);
      ShrShl(k, n - 4);
      ShrTimes(Shl(k, n - 4), n - 4);
    }
  }

  lemma {:induction false} ShrTimes(x: Addr, n: nat)
    requires 16 * x < WORD
    ensures Shr(16 * x, n) / 16 == Shr(x, n)
  {
    if n >= 4 { ShrTimes(x, n - 4); }
  }

  lemma TruncateAligned(a: Addr, n: nat)
    ensures Aligned(Truncate(a, n), n) && Same(a, Truncate(a, n), n)
  {
    Decompose(a, n);
    ShrShl(Shr(a, n), n);
  }

  lemma WholeRange(a: Addr)
    ensures Shr(a, 32) == 0
  {
    Decompose(a, 32);
    PowWord();
    ShlSign(Shr(a, 32), 32);
  }
}
