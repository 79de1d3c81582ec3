/** Bit-level writing and reading, Golomb-Rice codes and CompactSize integers. */
module BitCodec {
  import opened Bytes
  import opened Powers
  import WideInt

  // ----- Bits of bytes

  /** The `n` highest bits of a byte, highest first. */
  function ByteBits(b: nat, n: nat): (r: seq<bool>)
    requires n <= 8
    ensures |r| == n
  {
    if n == 0 then [] else ByteBits(b, n - 1) + [Bit(b, 8 - n)]
  }

  function Unpack(data: seq<Byte>): (r: seq<bool>)
    ensures |r| == 8 * |data|
  {
    if |data| == 0 then [] else Unpack(data[..|data| - 1]) + ByteBits(data[|data| - 1], 8)
  }

  lemma {:induction false} UnpackSnoc(data: seq<Byte>, b: Byte)
    ensures Unpack(data + [b]) == Unpack(data) + ByteBits(b, 8)
  {
    assert (data + [b])[..|data|] == data;
  }

  lemma {:induction false} ByteBitsAt(b: nat, n: nat, j: nat)
    requires j < n <= 8
    ensures ByteBits(b, n)[j] == Bit(b, 7 - j)
  {
    if j < n - 1 {
      ByteBitsAt(b, n - 1, j);
    }
  }

  lemma {:induction false} UnpackAt(data: seq<Byte>, i: nat, j: nat)
    requires i < |data| && j < 8
    ensures Unpack(data)[8 * i + j] == Bit(data[i], 7 - j)
  {
    var n := |data| - 1;
    if i < n {
      UnpackAt(data[..n], i, j);
    } else {
      ByteBitsAt(data[n], 8, j);
    }
  }

  /** The number a bit string spells, highest bit first. */
  function Num(bits: seq<bool>): nat
  {
    if |bits| == 0 then 0 else 2 * Num(bits[..|bits| - 1]) + if bits[|bits| - 1] then 1 else 0
  }

  lemma {:induction false} NumSnoc(bits: seq<bool>, b: bool)
    ensures Num(bits + [b]) == 2 * Num(bits) + if b then 1 else 0
  {
    assert (bits + [b])[..|bits|] == bits;
  }

  /** A byte that starts with the given bits and goes on with zeros. */
  function Pack(bits: seq<bool>): nat
    requires |bits| <= 8
  {
    Num(bits) * Pow2(8 - |bits|)
  }

  lemma {:induction false} NumBound(bits: seq<bool>)
    ensures Num(bits) < Pow2(|bits|)
  {
    if |bits| > 0 {
      NumBound(bits[..|bits| - 1]);
    }
  }

  /** The bits of a packed byte down to position `i` are the first `i` bits packed. */
  lemma {:induction false} ShrPack(bits: seq<bool>, i: nat)
    requires i <= |bits| <= 8
    ensures Shr(Pack(bits), 8 - i) == Num(bits[..i])
    decreases |bits| - i
  {
    if i == |bits| {
      ShrMultiple(Num(bits), 8 - i);
      assert bits[..i] == bits;
    } else {
      ShrPack(bits, i + 1);
      assert bits[..i + 1][..i] == bits[..i];
    }
  }

  lemma {:induction false} ShrBelow(bits: seq<bool>, i: nat)
    requires |bits| < i <= 8
    ensures Shr(Pack(bits), 8 - i) % 2 == 0
  {
    ShrEven(Num(bits), i - |bits| - 1, 8 - i);
    assert (i - |bits| - 1) + 1 + (8 - i) == 8 - |bits|;
  }

  lemma {:induction false} ShrEven(n: nat, k: nat, l: nat)
    ensures Shr(n * Pow2(k + 1 + l), l) % 2 == 0
  {
    var m := n * Pow2(k);
    Pow2Add(k + 1, l);
    EvenFactor(n, Pow2(k), Pow2(l));
    ShrMultiple(2 * m, l);
  }

  lemma {:induction false} EvenFactor(n: nat, p: nat, q: nat)
    ensures n * ((2 * p) * q) == (2 * (n * p)) * q
  {
    Regroup(n, 2 * p, q);
    Twice(n, p);
  }

  lemma {:induction false} Regroup(a: nat, b: nat, c: nat)
    ensures a * (b * c) == (a * b) * c
  {}

  lemma {:induction false} Twice(n: nat, p: nat)
    ensures n * (2 * p) == 2 * (n * p)
  {}

  function Zeros(n: nat): (r: seq<bool>)
    ensures |r| == n
  {
    if n == 0 then [] else Zeros(n - 1) + [false]
  }

  lemma {:induction false} ZerosAt(n: nat, i: nat)
    requires i < n
    ensures !Zeros(n)[i]
  {
    if i < n - 1 {
      ZerosAt(n - 1, i);
    }
  }

  lemma {:induction false} ZerosNext(bits: seq<bool>, n: nat)
    requires |bits| <= n
    ensures bits + Zeros(n + 1 - |bits|) == bits + Zeros(n - |bits|) + [false] && (n == |bits| ==> bits[..n] == bits)
  {}

  /** Reading a packed byte gives the bits back, then zeros. */
  lemma {:induction false} PackRoundTrip(bits: seq<bool>, n: nat)
    requires |bits| <= 8 && n <= 8
    ensures ByteBits(Pack(bits), n) == if n <= |bits| then bits[..n] else bits + Zeros(n - |bits|)
  {
    if n > 0 {
      var k := n - 1;
      PackRoundTrip(bits, k);
      PackedBit(bits, k);
      if n <= |bits| {
        assert bits[..n] == bits[..k] + [bits[k]];
      } else {
        ZerosNext(bits, k);
      }
    } else {
      assert bits[..0] == [];
    }
  }

  lemma {:induction false} PackedBit(bits: seq<bool>, k: nat)
    requires |bits| <= 8 && k < 8
    ensures Bit(Pack(bits), 7 - k) <==> k < |bits| && bits[k]
  {
    var n := k + 1;
    if n <= |bits| {
      ShrPack(bits, n);
      assert bits[..n][..k] == bits[..k];
    } else {
      ShrBelow(bits, n);
    }
  }

  /** A full byte is its bits. */
  lemma {:induction false} FullByte(bytes: seq<Byte>, b: Byte, bits: seq<bool>)
    requires |bits| == 8 && b == Pack(bits)
    ensures Unpack(bytes + [b]) == Unpack(bytes) + bits
  {
    UnpackSnoc(bytes, b);
    PackRoundTrip(bits, 8);
    assert bits[..8] == bits;
  }

  /** A byte that is not full is its bits and zeros. */
  lemma {:induction false} LastByte(bytes: seq<Byte>, b: Byte, bits: seq<bool>, padding: nat)
    requires |bits| < 8 && b == Pack(bits) && padding == 8 - |bits|
    ensures Unpack(bytes + [b]) == Unpack(bytes) + bits + Zeros(padding)
  {
    UnpackSnoc(bytes, b);
    PackRoundTrip(bits, 8);
    assert Unpack(bytes) + (bits + Zeros(padding)) == Unpack(bytes) + bits + Zeros(padding);
  }

  lemma {:induction false} PackBound(bits: seq<bool>)
    requires |bits| <= 8
    ensures Pack(bits) < 256
  {
    NumBound(bits);
    Pow2Add(|bits|, 8 - |bits|);
    assert Pow2(8) == 256;
    Scale(Num(bits), Pow2(|bits|), Pow2(8 - |bits|));
  }

  lemma {:induction false} Scale(a: nat, b: nat, c: nat)
    requires a < b && c > 0
    ensures a * c < b * c
  {}

  lemma {:induction false} PackSnoc(bits: seq<bool>, bit: bool)
    requires |bits| < 8
    ensures Pack(bits + [bit]) == Pack(bits) + if bit then Pow2(7 - |bits|) else 0
  {
    var n, p := Num(bits), Pow2(7 - |bits|);
    NumSnoc(bits, bit);
    assert Pow2(8 - |bits|) == 2 * p;
    HalfStep(n, p);
  }

  lemma {:induction false} HalfStep(n: nat, p: nat)
    ensures (2 * n) * p == n * (2 * p) && (2 * n + 1) * p == n * (2 * p) + p
  {}

  /** Setting the next bit of a packed byte. */
  lemma {:induction false} PackNext(bits: seq<bool>, bit: bool)
    requires |bits| < 8
    ensures Pack(bits) < 256 && Pack(bits + [bit]) < 256
    ensures Pack(bits + [bit]) == if bit then WideInt.OrBit(Pack(bits), 7 - |bits|) else Pack(bits)
  {
    PackBound(bits);
    PackBound(bits + [bit]);
    PackSnoc(bits, bit);
    NextIsClear(bits);
  }

  lemma {:induction false} NextIsClear(bits: seq<bool>)
    requires |bits| < 8
    ensures (Pack(bits) / Pow2(7 - |bits|)) % 2 == 0
  {
    ShrBelow(bits, |bits| + 1);
    ShrIsDiv(Pack(bits), 7 - |bits|);
  }

  // ----- Codes

  /** The `n` lowest bits of a number, highest first. */
  function Bin(value: nat, n: nat): (r: seq<bool>)
    ensures |r| == n
  {
    if n == 0 then [] else [Bit(value, n - 1)] + Bin(value, n - 1)
  }

  /** The Golomb-Rice code: the quotient in unary, the remainder in `p` bits. */
  function Golomb(value: nat, p: nat): seq<bool>
  {
    Zeros(Shr(value, p)) + [true] + Bin(value % Pow2(p), p)
  }

  /** The first `n` bits, with zeros past the end. */
  function Take(bits: seq<bool>, n: nat): (r: seq<bool>)
    ensures |r| == n
  {
    if n <= |bits| then bits[..n] else bits + Zeros(n - |bits|)
  }

  function Drop(bits: seq<bool>, n: nat): seq<bool>
  {
    if n <= |bits| then bits[n..] else []
  }

  /** The next bit; zeros forever past the end. */
  predicate Head(bits: seq<bool>)
  {
    |bits| > 0 && bits[0]
  }

  lemma {:induction false} TakeNext(bits: seq<bool>, n: nat)
    ensures Take(bits, n + 1) == Take(bits, n) + [Head(Drop(bits, n))] && Drop(bits, n + 1) == Drop(Drop(bits, n), 1)
    ensures Num(Take(bits, n + 1)) == 2 * Num(Take(bits, n)) + if Head(Drop(bits, n)) then 1 else 0
  {
    if n == |bits| {
      assert Zeros(1) == [false] && bits[..n] == bits;
    }
    NumSnoc(Take(bits, n), Head(Drop(bits, n)));
  }

  /** The number of zeros before the first set bit. */
  function Leading(bits: seq<bool>): (n: nat)
    requires true in bits
    ensures n < |bits|
  {
    if bits[0] then 0 else 1 + Leading(bits[1..])
  }

  /** What follows the first set bit. */
  function AfterUnary(bits: seq<bool>): seq<bool>
    requires true in bits
  {
    bits[Leading(bits) + 1..]
  }

  lemma {:induction false} LeadingStep(bits: seq<bool>)
    requires true in bits
    ensures if bits[0] then Leading(bits) == 0 && AfterUnary(bits) == bits[1..]
            else
              && true in bits[1..] && Leading(bits) == 1 + Leading(bits[1..])
              && AfterUnary(bits) == AfterUnary(bits[1..])
  {}

  lemma {:induction false} LeadingIs(bits: seq<bool>)
    requires true in bits
    ensures bits[Leading(bits)] && forall i :: 0 <= i < Leading(bits) ==> !bits[i]
  {
    if !bits[0] {
      LeadingIs(bits[1..]);
    }
  }

  /** Quotient and remainder put together. */
  function Combined(q: nat, p: nat, r: nat): nat
  {
    q * Pow2(p) + r
  }

  /** The value of the code at the front: zeros counted, then `p` bits. */
  function Code(bits: seq<bool>, p: nat): nat
    requires true in bits
  {
    Combined(Leading(bits), p, Num(Take(AfterUnary(bits), p)))
  }

  function AfterCode(bits: seq<bool>, p: nat): seq<bool>
    requires true in bits
  {
    Drop(AfterUnary(bits), p)
  }

  lemma {:induction false} LeadingAre(n: nat, tail: seq<bool>)
    ensures var bits := Zeros(n) + [true] + tail; true in bits && Leading(bits) == n && AfterUnary(bits) == tail
  {
    var bits := Zeros(n) + [true] + tail;
    assert bits[n];
    LeadingIs(bits);
    if Leading(bits) < n {
      ZerosAt(n, Leading(bits));
    }
  }

  /** What was written decodes to itself, whatever follows it. */
  lemma {:induction false} GolombRoundTrip(v: nat, p: nat, more: seq<bool>)
    ensures var bits := Golomb(v, p) + more; true in bits && Code(bits, p) == v && AfterCode(bits, p) == more
  {
    var low := Bin(v % Pow2(p), p);
    assert Golomb(v, p) + more == Zeros(Shr(v, p)) + [true] + (low + more);
    LeadingAre(Shr(v, p), low + more);
    assert (low + more)[..p] == low && (low + more)[p..] == more;
    GolombValue(v, p);
  }

  lemma {:induction false} NumConcat(a: seq<bool>, b: seq<bool>)
    ensures Num(a + b) == Num(a) * Pow2(|b|) + Num(b)
  {
    if |b| == 0 {
      assert a + b == a;
    } else {
      var front, last := b[..|b| - 1], b[|b| - 1];
      NumConcat(a, front);
      assert (a + b)[..|a + b| - 1] == a + front;
      Twice(Num(a), Pow2(|front|));
    }
  }

  /** The low bits of a number spell it modulo a power of two. */
  lemma {:induction false} NumBin(value: nat, n: nat)
    ensures Num(Bin(value, n)) + Shr(value, n) * Pow2(n) == value
    ensures Num(Bin(value, n)) < Pow2(n)
  {
    NumBound(Bin(value, n));
    if n > 0 {
      NumBin(value, n - 1);
      var top, low := [Bit(value, n - 1)], Bin(value, n - 1);
      NumConcat(top, low);
      assert Num(top) == if Bit(value, n - 1) then 1 else 0 by {
        assert top[..0] == [];
      }
      var s := Shr(value, n - 1);
      assert s == 2 * (s / 2) + s % 2;
      SplitProduct(s / 2, s % 2, Pow2(n - 1));
    }
  }

  lemma {:induction false} SplitProduct(q: nat, r: nat, p: nat)
    ensures (2 * q + r) * p == q * (2 * p) + r * p
  {}

  lemma {:induction false} GolombValue(value: nat, p: nat)
    ensures Shr(value, p) * Pow2(p) + Num(Bin(value % Pow2(p), p)) == value
  {
    var r := value % Pow2(p);
    ShrIsDiv(value, p);
    DivMod(value, Pow2(p));
    NumBin(r, p);
    ShrIsDiv(r, p);
    DivUnique(r, Pow2(p), 0, r);
  }

  // ----- Writing

  class BitWriter {
    var bytes: seq<Byte>
    var current: Byte
    var bitsUsed: nat
    /** The bits that do not fill a byte yet. */
    ghost var pending: seq<bool>

    ghost predicate Valid()
      reads this
    {
      |pending| == bitsUsed < 8 && current == Pack(pending)
    }

    /** Everything written so far. */
    ghost function Bits(): seq<bool>
      reads this
    {
      Unpack(bytes) + pending
    }

    constructor ()
      ensures Valid() && Bits() == []
    {
      bytes, current, bitsUsed, pending := [], 0, 0, [];
    }

    method WriteBit(bit: bool)
      requires Valid()
      modifies this
      ensures Valid() && Bits() == old(Bits()) + [bit]
    {
      ghost var was, next := pending, pending + [bit];
      PackNext(was, bit);
      if bit {
        current := WideInt.OrBit(current, 7 - bitsUsed);
      }
      pending := next;
      bitsUsed := bitsUsed + 1;
      if bitsUsed == 8 {
        FullByte(bytes, current, pending);
        bytes := bytes + [current];
        current, bitsUsed, pending := 0, 0, [];
      }
    }

    method WriteBits(value: nat, n: nat)
      requires Valid()
      modifies this
      ensures Valid() && Bits() == old(Bits()) + Bin(value, n)
    {
      var i := n;
      while i > 0
        invariant 0 <= i <= n && Valid() && Bits() + Bin(value, i) == old(Bits()) + Bin(value, n)
      {
        i := i - 1;
        WriteBit(Bit(value, i));
      }
    }

    /** Quotient in unary, remainder in binary. */
    method WriteGolombRice(value: nat, p: nat)
      requires Valid()
      modifies this
      ensures Valid() && Bits() == old(Bits()) + Golomb(value, p)
    {
      var q := Shr(value, p);
      var i := 0;
      while i < q
        invariant 0 <= i <= q && Valid() && Bits() == old(Bits()) + Zeros(i)
      {
        WriteBit(false);
        i := i + 1;
      }
      WriteBit(true);
      WriteBits(value % Pow2(p), p);
    }

    /** The bytes, the last one filled up with zeros. */
    method Finish() returns (data: seq<Byte>, ghost padding: nat)
      requires Valid()
      ensures Bits() <= Unpack(data) && |Unpack(data)| < |Bits()| + 8
      ensures padding < 8 && Unpack(data) == Bits() + Zeros(padding)
    {
      data, padding := bytes, 0;
      if bitsUsed > 0 {
        LastByte(bytes, current, pending, 8 - bitsUsed);
        data, padding := bytes + [current], 8 - bitsUsed;
      }
    }
  }

  // ----- Reading

  class BitReader {
    const data: seq<Byte>
    var byteIdx: nat
    var bitIdx: nat
    /** The bits not read yet. */
    ghost var rest: seq<bool>

    ghost predicate Valid()
      reads this
    {
      && bitIdx < 8 && (byteIdx < |data| || (byteIdx == |data| && bitIdx == 0))
      && rest == Unpack(data)[8 * byteIdx + bitIdx..]
    }

    constructor (data: seq<Byte>)
      ensures Valid() && rest == Unpack(data)
    {
      this.data, byteIdx, bitIdx, rest := data, 0, 0, Unpack(data);
    }

    method ReadBit() returns (bit: bool)
      requires Valid()
      modifies this
      ensures Valid()
      ensures bit == Head(old(rest)) && rest == Drop(old(rest), 1)
    {
      if byteIdx >= |data| {
        return false;
      }
      UnpackAt(data, byteIdx, bitIdx);
      bit := Bit(data[byteIdx], 7 - bitIdx);
      rest := rest[1..];
      bitIdx := bitIdx + 1;
      if bitIdx == 8 {
        bitIdx, byteIdx := 0, byteIdx + 1;
      }
    }

    method ReadBits(n: nat) returns (value: nat)
      requires Valid()
      modifies this
      ensures Valid() && value == Num(Take(old(rest), n)) && rest == Drop(old(rest), n)
    {
      value := 0;
      ghost var all := rest;
      assert Take(all, 0) == [];
      var i := 0;
      while i < n
        invariant 0 <= i <= n && Valid() && value == Num(Take(all, i)) && rest == Drop(all, i)
      {
        TakeNext(all, i);
        var bit := ReadBit();
        value := 2 * value + if bit then 1 else 0;
        i := i + 1;
      }
    }

    /** Count zeros up to the next set bit. With none ahead this would never end. */
    method ReadUnary() returns (q: nat)
      requires Valid() && true in rest
      modifies this
      ensures Valid() && q == Leading(old(rest)) && rest == AfterUnary(old(rest))
    {
      ghost var all := rest;
      q := 0;
      LeadingStep(rest);
      var bit := ReadBit();
      while !bit
        invariant Valid()
        invariant if bit then q == Leading(all) && rest == AfterUnary(all)
                  else true in rest && q + 1 + Leading(rest) == Leading(all) && AfterUnary(rest) == AfterUnary(all)
        decreases |rest|
      {
        q := q + 1;
        LeadingStep(rest);
        bit := ReadBit();
      }
    }

    /** Decode the next code. */
    method ReadGolombRice(p: nat) returns (value: nat)
      requires Valid() && true in rest
      modifies this
      ensures Valid() && value == Code(old(rest), p) && rest == AfterCode(old(rest), p)
    {
      var q := ReadUnary();
      var r := ReadBits(p);
      value := Combined(q, p, r);
    }

    /** Reading back what was written. */
    method ReadBack(p: nat, ghost v: nat, ghost more: seq<bool>) returns (value: nat)
      requires Valid() && rest == Golomb(v, p) + more
      modifies this
      ensures Valid() && value == v && rest == more
    {
      GolombRoundTrip(v, p, more);
      value := ReadGolombRice(p);
    }
  }

  // ----- CompactSize

  /** `k` bytes, lowest first. */
  function LeBytes(n: nat, k: nat): (r: seq<Byte>)
    ensures |r| == k
  {
    if k == 0 then [] else [n % 256] + LeBytes(n / 256, k - 1)
  }

  function LeValue(bytes: seq<Byte>): nat
  {
    if |bytes| == 0 then 0 else bytes[0] + 256 * LeValue(bytes[1..])
  }

  lemma {:induction false} LeRoundTrip(n: nat, k: nat)
    requires n < Pow2(8 * k)
    ensures LeValue(LeBytes(n, k)) == n
  {
    if k > 0 {
      Pow2Add(8, 8 * (k - 1));
      assert Pow2(8) == 256;
      Lower(n, Pow2(8 * (k - 1)));
      LeRoundTrip(n / 256, k - 1);
      assert LeBytes(n, k)[1..] == LeBytes(n / 256, k - 1);
    }
  }

  lemma {:induction false} Lower(n: nat, p: nat)
    requires n < 256 * p
    ensures n / 256 < p
  {}

  function WriteCompactSize(n: nat): seq<Byte>
  {
    if n < 0xfd then [n]
    else if n <= 0xffff then [0xfd] + LeBytes(n, 2)
    else if n <= 0xffff_ffff then [0xfe] + LeBytes(n, 4)
    else [0xff] + LeBytes(n, 8)
  }

  /** The value and the number of bytes it takes. */
  function ReadCompactSize(data: seq<Byte>): (nat, nat)
    requires Readable(data)
  {
    if |data| == 0 then (0, 0)
    else if data[0] == 0xff then (LeValue(data[1..9]), 9)
    else if data[0] == 0xfe then (LeValue(data[1..5]), 5)
    else if data[0] == 0xfd then (LeValue(data[1..3]), 3)
    else (data[0], 1)
  }

  predicate Readable(data: seq<Byte>)
  {
    |data| > 0 ==>
      && (data[0] == 0xfd ==> |data| >= 3) && (data[0] == 0xfe ==> |data| >= 5) && (data[0] == 0xff ==> |data| >= 9)
  }

  /** A written size reads back, whatever follows it. */
  lemma {:induction false} CompactRoundTrip(n: nat, rest: seq<Byte>)
    requires n < 0x1_0000_0000_0000_0000
    ensures Readable(WriteCompactSize(n) + rest)
    ensures ReadCompactSize(WriteCompactSize(n) + rest) == (n, |WriteCompactSize(n)|)
  {
    var data := WriteCompactSize(n) + rest;
    if n < 0xfd {
    } else if n <= 0xffff {
      assert data[1..3] == LeBytes(n, 2);
      SmallPower(n, 2);
      LeRoundTrip(n, 2);
    } else if n <= 0xffff_ffff {
      assert data[1..5] == LeBytes(n, 4);
      SmallPower(n, 4);
      LeRoundTrip(n, 4);
    } else {
      assert data[1..9] == LeBytes(n, 8);
      SmallPower(n, 8);
      LeRoundTrip(n, 8);
    }
  }

  lemma {:induction false} SmallPower(n: nat, k: nat)
    requires (k == 2 && n <= 0xffff) || (k == 4 && n <= 0xffff_ffff) || (k == 8 && n < 0x1_0000_0000_0000_0000)
    ensures n < Pow2(8 * k)
  {
    var eight := if k == 2 then 4 * k else if k == 4 then 2 * k else k;
    assert Pow2(8) == 256;
    Square(eight, 256);
    if k > 2 {
      Square(2 * eight, 0x1_0000);
    }
    if k > 4 {
      Square(4 * eight, 0x1_0000_0000);
    }
  }

  lemma {:induction false} Square(k: nat, p: nat)
    requires Pow2(k) == p
    ensures Pow2(2 * k) == p * p
  {
    Pow2Add(k, k);
  }
}
