/** LEB128 numbers (section 7.6 of the DWARF Debugging Information Format Version 5) in the ELF
    loader: the forward accumulators, and the backward fold over a saved value. */
module Leb128 {
  import opened MachineWords

  const WORD64 := 0x1_0000_0000_0000_0000

  /** x << 7 n */
  function Scale(x: int, n: nat): int {
    if n == 0 then x else 128 * Scale(x, n - 1)
  }

  // ---- encodings --------------------------------------------------------------

  /** Every byte but the last has its top bit set. */
  predicate IsEncoding(bs: seq<Byte>)
    decreases |bs|
  {
    bs != [] && if bs[0] < 128 then |bs| == 1 else IsEncoding(bs[1..])
  }

  function Val(bs: seq<Byte>): nat
    decreases |bs|
  {
    if bs == [] then 0 else bs[0] % 128 + 128 * Val(bs[1..])
  }

  /** The two's complement reading: bit 6 of the last byte is the sign. */
  function SignedVal(bs: seq<Byte>): int
    requires bs != []
    decreases |bs|
  {
    if |bs| == 1 then (if bs[0] % 128 < 64 then bs[0] % 128 else bs[0] % 128 - 128)
    else bs[0] % 128 + 128 * SignedVal(bs[1..])
  }

  function Encode(v: nat): (bs: seq<Byte>)
  {
    if v < 128 then [v] else [v % 128 + 128] + Encode(v / 128)
  }

  function EncodeSigned(v: int): seq<Byte>
    decreases if v < 0 then -v else v
  {
    if -64 <= v < 64 then [v % 128] else [v % 128 + 128] + EncodeSigned(v / 128)
  }

  lemma {:induction false} EncodeVal(v: nat)
    ensures IsEncoding(Encode(v)) && Val(Encode(v)) == v
  {
    if v >= 128 {
      EncodeVal(v / 128);
      assert Encode(v)[1..] == Encode(v / 128);
    }
  }

  lemma {:induction false} EncodeSignedVal(v: int)
    ensures IsEncoding(EncodeSigned(v)) && SignedVal(EncodeSigned(v)) == v
    decreases if v < 0 then -v else v
  {
    if !(-64 <= v < 64) {
      EncodeSignedVal(v / 128);
      assert EncodeSigned(v)[1..] == EncodeSigned(v / 128);
    }
  }

  /** Encode writes the shortest encoding: the only one that does not end in a zero byte. */
  lemma {:induction false} EncodeUnique(bs: seq<Byte>)
    requires IsEncoding(bs) && (|bs| == 1 || bs[|bs| - 1] != 0)
    ensures Encode(Val(bs)) == bs
    decreases |bs|
  {
    if |bs| > 1 {
      EncodeUnique(bs[1..]);
      NotZero(bs[1..]);
      assert bs == [bs[0]] + bs[1..];
    }
  }

  lemma {:induction false} NotZero(bs: seq<Byte>)
    requires IsEncoding(bs) && bs[|bs| - 1] != 0
    ensures Val(bs) > 0
    decreases |bs|
  {
    if |bs| > 1 { NotZero(bs[1..]); }
  }

  /** The examples of the standard. */
  lemma UnsignedExamples()
    ensures Val([0x02]) == 2 && Val([0x7F]) == 127 && Val([0x80, 0x01]) == 128 && Val([0x81, 0x01]) == 129
    ensures Val([0xB9, 0x64]) == 12857
  {
    assert [0x80, 0x01][1..] == [0x01] && [0x81, 0x01][1..] == [0x01] && [0xB9, 0x64][1..] == [0x64];
  }

  lemma SignedExamples()
    ensures SignedVal([0x02]) == 2 && SignedVal([0x7E]) == -2 && SignedVal([0xFF, 0x00]) == 127 && SignedVal([0x81, 0x7F]) == -127
    ensures SignedVal([0x80, 0x01]) == 128 && SignedVal([0x80, 0x7F]) == -128
  {
    assert [0xFF, 0x00][1..] == [0x00] && [0x81, 0x7F][1..] == [0x7F] && [0x80, 0x01][1..] == [0x01] && [0x80, 0x7F][1..] == [0x7F];
  }

  lemma {:induction false} EncodeLength(v: nat, n: nat)
    requires n >= 1 && v < Scale(1, n)
    ensures |Encode(v)| <= n
    decreases n
  {
    if v >= 128 {
      if n > 1 { EncodeLength(v / 128, n - 1); }
    }
  }

  lemma {:induction false} EncodeSignedLength(v: int, n: nat)
    requires n >= 1 && -64 * Scale(1, n - 1) <= v < 64 * Scale(1, n - 1)
    ensures |EncodeSigned(v)| <= n
    decreases n
  {
    if n > 1 && !(-64 <= v < 64) { EncodeSignedLength(v / 128, n - 1); }
  }

  // ---- arithmetic -------------------------------------------------------------

  lemma {:induction false} ScaleAdd(x: int, y: int, n: nat)
    ensures Scale(x + y, n) == Scale(x, n) + Scale(y, n) && Scale(128 * x, n) == 128 * Scale(x, n)
  {
    if n > 0 { ScaleAdd(x, y, n - 1); }
  }

  lemma {:induction false} ScaleSign(x: int, n: nat)
    ensures x >= 0 ==> Scale(x, n) >= x
  {
    if n > 0 { ScaleSign(x, n - 1); }
  }

  /** One more byte adds its seven bits, and never passes the whole value. */
  lemma {:induction false} ValTake(bs: seq<Byte>, k: nat)
    requires k < |bs|
    ensures Val(bs[..k + 1]) == Val(bs[..k]) + Scale(bs[k] % 128, k)
    ensures 0 <= Scale(bs[k] % 128, k) && Val(bs[..k + 1]) <= Val(bs)
    decreases k
  {
    assert bs[..k + 1][1..] == bs[1..][..k];
    if k > 0 {
      ValTake(bs[1..], k - 1);
      assert bs[..k][1..] == bs[1..][..k - 1];
    }
  }

  /** Going backwards, one more byte shifts and adds. */
  lemma {:induction false} ValDrop(bs: seq<Byte>, k: nat)
    requires k < |bs|
    ensures Val(bs[k..]) == bs[k] % 128 + 128 * Val(bs[k + 1..]) && Val(bs[k..]) <= Val(bs)
    decreases k
  {
    assert bs[k..][1..] == bs[k + 1..];
    if k > 0 {
      ValDrop(bs[1..], k - 1);
      assert bs[1..][k - 1..] == bs[k..];
    }
  }

  lemma {:induction false} ValBound(bs: seq<Byte>)
    ensures Val(bs) < Scale(1, |bs|)
    decreases |bs|
  {
    if bs != [] { ValBound(bs[1..]); }
  }

  /** The signed value is the unsigned one, less 2 to the number of bits if the sign is set. */
  lemma {:induction false} SignedFromUnsigned(bs: seq<Byte>)
    requires bs != []
    ensures SignedVal(bs) == Val(bs) - (if bs[|bs| - 1] % 128 >= 64 then Scale(1, |bs|) else 0)
    decreases |bs|
  {
    if |bs| > 1 { SignedFromUnsigned(bs[1..]); }
  }

  // ---- the input --------------------------------------------------------------

  /** Reading past the end of the file yields zero bytes. */
  function ByteAt(file: seq<Byte>, i: nat): Byte { if i < |file| then file[i] else 0 }

  /** The first n bytes, zero-padded. */
  function Padded(file: seq<Byte>, n: nat): seq<Byte> { seq(n, i requires 0 <= i => ByteAt(file, i)) }

  /** The encoding that starts at a position. */
  function EncodingAt(file: seq<Byte>, pos: nat): (bs: seq<Byte>)
    ensures IsEncoding(bs)
    decreases if pos < |file| then |file| - pos else 0
  {
    var b := ByteAt(file, pos);
    if b < 128 then [b] else [b] + EncodingAt(file, pos + 1)
  }

  /** What follows an encoding does not matter. */
  lemma {:induction false} EncodingFound(file: seq<Byte>, pos: nat, bs: seq<Byte>)
    requires IsEncoding(bs) && pos + |bs| <= |file| && file[pos..pos + |bs|] == bs
    ensures EncodingAt(file, pos) == bs
    decreases |bs|
  {
    assert file[pos] == bs[0];
    if |bs| > 1 {
      assert file[pos + 1..pos + 1 + |bs[1..]|] == bs[1..];
      EncodingFound(file, pos + 1, bs[1..]);
      assert bs == [bs[0]] + bs[1..];
    }
  }

  /** Unsigned 64-bit shift; from 64 bits on the result of the C++ shift is undefined, and
      nothing is claimed about it. */
  function ShiftLeft(x: nat, n: nat): nat { if 7 * n < 64 then Scale(x, n) % WORD64 else 0 }

  /** Nine bytes hold 63 bits. */
  lemma SmallVal(bs: seq<Byte>)
    requires |bs| <= 9
    ensures Val(bs) < WORD64 / 2
  {
    ValBound(bs);
    ScaleUp(|bs|, 9);
    assert Scale(1, 3) == 0x20_0000 && Scale(1, 6) == 0x400_0000_0000 && Scale(1, 9) == WORD64 / 2;
  }

  lemma {:induction false} ScaleUp(n: nat, m: nat)
    requires n <= m
    ensures 0 < Scale(1, n) <= Scale(1, m)
  {
    if n < m {
      ScaleUp(n, m - 1);
    } else if n > 0 {
      ScaleUp(n - 1, m - 1);
    }
  }

  /** One step of the accumulator: no wrap-around while the whole value fits. */
  lemma Accumulate(bs: seq<Byte>, k: nat, value: nat)
    requires k < |bs| <= 10 && Val(bs) < WORD64 && value == Val(bs[..k])
    ensures (value + ShiftLeft(bs[k] % 128, k)) % WORD64 == Val(bs[..k + 1])
  {
    ValTake(bs, k);
    NoWrap(value, Scale(bs[k] % 128, k));
  }

  lemma NoWrap(x: nat, y: nat)
    requires x + y < WORD64
    ensures (x + y % WORD64) % WORD64 == x + y
  {
  }

  /** The sign bit of the last byte: value |= -(1 << Offset), on a value below 1 << Offset. */
  function Extended(value: int, last: Byte, count: nat): int {
    if last % 128 >= 64 then value - Scale(1, count) else value
  }

  /** One step of the signed reader, on an encoding short enough not to wrap. */
  lemma SignedStep(bs: seq<Byte>, count: nat, value: nat, b: Byte)
    requires count < |bs| <= 9 && b == bs[count] && value == Val(bs[..count])
    ensures var v := (value + ShiftLeft(b % 128, count)) % WORD64;
      v == Val(bs[..count + 1]) && (count + 1 == |bs| ==> Extended(v, b, count + 1) == SignedVal(bs))
  {
    SmallVal(bs);
    Accumulate(bs, count, value);
    if count + 1 == |bs| {
      assert bs[..count + 1] == bs;
      SignedFromUnsigned(bs);
    }
  }

  class ElfLoader {
    ghost const file: seq<Byte>
    var source: seq<Byte>          // what DInputSource has not delivered yet
    var buffered: seq<Byte>
    var position: nat

    ghost predicate Valid()
      reads this
    {
      && buffered == Padded(file, |buffered|)
      && source == if |buffered| < |file| then file[|buffered|..] else []
    }

    constructor (file: seq<Byte>)
      ensures Valid() && this.file == file && position == 0
    {
      this.file := file;
      source, buffered, position := file, [], 0;
    }

    method Seek(pos: nat)
      requires Valid()
      modifies this`position
      ensures Valid() && position == pos
    {
      position := pos;
    }

    /** ReadData for one byte: fills the buffer up to the position, with zeros past the end. */
    method ReadUINT8() returns (b: Byte)
      requires Valid()
      modifies this
      ensures Valid() && b == ByteAt(file, old(position)) && position == old(position) + 1
    {
      if position + 1 > |buffered| {
        var wanted := position + 1 - |buffered|;
        var got := if wanted <= |source| then wanted else |source|;
        buffered := buffered + source[..got] + seq(wanted - got, _ => 0);
        source := source[got..];
      }
      b := buffered[position];
      position := position + 1;
    }

    method ReadULEB128() returns (value: nat)
      requires Valid()
      modifies this
      ensures Valid()
      ensures var bs := EncodingAt(file, old(position));
        position == old(position) + |bs| && (|bs| <= 10 && Val(bs) < WORD64 ==> value == Val(bs))
    {
      ghost var start, bs := position, EncodingAt(file, position);
      value := 0;
      var count := 0;   // Offset / 7
      while true
        invariant Valid() && count < |bs| && position == start + count
        invariant |bs| <= 10 && Val(bs) < WORD64 ==> value == Val(bs[..count])
        decreases |bs| - count
      {
        EncodingBytes(file, start, count);
        if |bs| <= 10 && Val(bs) < WORD64 { Accumulate(bs, count, value); }
        var b := ReadUINT8();
        value := (value + ShiftLeft(b % 128, count)) % WORD64;
        count := count + 1;
        if b < 128 { break; }
      }
      assert bs[..|bs|] == bs;
    }

    method ReadSLEB128() returns (value: int)
      requires Valid()
      modifies this
      ensures Valid()
      ensures var bs := EncodingAt(file, old(position));
        position == old(position) + |bs| && (|bs| <= 9 ==> value == SignedVal(bs))
    {
      ghost var start, bs := position, EncodingAt(file, position);
      ghost var short := |bs| <= 9;
      value := 0;
      var count := 0;
      while true
        invariant Valid() && count < |bs| && position == start + count && value >= 0
        invariant short ==> value == Val(bs[..count])
        decreases |bs| - count
      {
        EncodingBytes(file, start, count);
        var b := ReadUINT8();
        if short { SignedStep(bs, count, value, b); }
        value := (value + ShiftLeft(b % 128, count)) % WORD64;
        count := count + 1;
        if b < 128 {
          value := Extended(value, b, count);
          return;
        }
      }
    }

    /** The saved bytes of a value in one of the LEB128 forms. */
    method ReadDebugValue() returns (data: seq<Byte>)
      requires Valid()
      modifies this
      ensures Valid() && data == EncodingAt(file, old(position)) && position == old(position) + |data|
    {
      ghost var start, bs := position, EncodingAt(file, position);
      data := [];
      while true
        invariant Valid() && |data| < |bs| && data == bs[..|data|] && position == start + |data|
        decreases |bs| - |data|
      {
        EncodingBytes(file, start, |data|);
        TakeMore(bs, |data|);
        var b := ReadUINT8();
        data := data + [b];
        if b < 128 { break; }
      }
    }
  }

  lemma TakeMore(bs: seq<Byte>, k: nat)
    requires k < |bs|
    ensures bs[..k + 1] == bs[..k] + [bs[k]] && (k + 1 == |bs| ==> bs[..k + 1] == bs)
  {
  }

  lemma {:induction false} EncodingBytes(file: seq<Byte>, pos: nat, k: nat)
    requires k < |EncodingAt(file, pos)|
    ensures var bs := EncodingAt(file, pos); bs[k] == ByteAt(file, pos + k) && (bs[k] < 128 <==> k == |bs| - 1)
    decreases k
  {
    if k > 0 { EncodingBytes(file, pos + 1, k - 1); }
  }

  /** SValue::GetUINT64 for the LEB128 forms: from the last byte to the first. */
  method GetUINT64(data: seq<Byte>) returns (value: nat)
    ensures Val(data) < WORD64 ==> value == Val(data)
  {
    value := 0;
    var i := |data|;
    while i > 0
      invariant 0 <= i <= |data| && (Val(data) < WORD64 ==> value == Val(data[i..]))
    {
      i := i - 1;
      ValDrop(data, i);
      value := value * 128 % WORD64;
      value := value + data[i] % 128;   // the low seven bits are clear
    }
    assert data[0..] == data;
  }

  predicate Holds(file: seq<Byte>, pos: nat, bs: seq<Byte>) {
    pos + |bs| <= |file| && file[pos..pos + |bs|] == bs
  }

  /** Past the end of the file every encoding is that of 0, and one that the end cuts off is
      closed by a zero byte. */
  lemma {:induction false} EndCloses(file: seq<Byte>, pos: nat)
    requires forall i :: pos <= i < |file| ==> file[i] >= 128
    ensures EncodingAt(file, pos) == (if pos < |file| then file[pos..] else []) + [0]
    decreases if pos < |file| then |file| - pos else 0
  {
    if pos < |file| {
      EndCloses(file, pos + 1);
      assert file[pos..] == [file[pos]] + file[pos + 1..];
    }
  }

  /** Where a file holds the encoding of a 64-bit value, the readers see exactly that encoding,
      short enough for their contracts, and its value is the one encoded. */
  lemma UnsignedRoundTrip(file: seq<Byte>, pos: nat, v: nat)
    requires v < WORD64 && Holds(file, pos, Encode(v))
    ensures EncodingAt(file, pos) == Encode(v) && |Encode(v)| <= 10 && Val(Encode(v)) == v
  {
    EncodeVal(v);
    EncodingFound(file, pos, Encode(v));
    assert Scale(1, 3) == 0x20_0000 && Scale(1, 6) == 0x400_0000_0000 && Scale(1, 9) == WORD64 / 2;
    EncodeLength(v, 10);
  }

  lemma SignedRoundTrip(file: seq<Byte>, pos: nat, v: int)
    requires -WORD64 / 4 <= v < WORD64 / 4 && Holds(file, pos, EncodeSigned(v))
    ensures EncodingAt(file, pos) == EncodeSigned(v) && |EncodeSigned(v)| <= 9 && SignedVal(EncodeSigned(v)) == v
  {
    EncodeSignedVal(v);
    EncodingFound(file, pos, EncodeSigned(v));
    assert Scale(1, 3) == 0x20_0000 && Scale(1, 6) == 0x400_0000_0000 && Scale(1, 8) == 0x100_0000_0000_0000;
    EncodeSignedLength(v, 9);
  }
}
