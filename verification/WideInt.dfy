/** Big-endian byte words of any width: increment, subtraction, comparison, addition and long
    division, each tied to the number the word stands for. */
module WideInt {
  import opened Bytes
  import opened Powers

  /** `256^k`, the number of words of `k` bytes. */
  function Words(k: nat): (p: nat)
    ensures p >= 1
  {
    if k == 0 then 1 else 256 * Words(k - 1)
  }

  /** The number a big-endian word stands for. */
  function Val(s: seq<Byte>): (v: nat)
  {
    if |s| == 0 then 0 else s[0] * Words(|s| - 1) + Val(s[1..])
  }

  lemma {:induction false} ValBound(s: seq<Byte>)
    ensures Val(s) < Words(|s|)
  {
    if |s| > 0 {
      ValBound(s[1..]);
      MulMono(s[0], 255, Words(|s| - 1));
    }
  }

  lemma {:induction false} ValConcat(x: seq<Byte>, y: seq<Byte>)
    ensures Val(x + y) == Val(x) * Words(|y|) + Val(y)
  {
    if |x| == 0 {
      assert x + y == y;
    } else {
      ValConcat(x[1..], y);
      assert (x + y)[1..] == x[1..] + y;
      WordsAdd(|x| - 1, |y|);
      Factor(x[0], Words(|x| - 1), Val(x[1..]), Words(|y|));
    }
  }

  lemma {:induction false} Factor(a: nat, b: nat, v: nat, c: nat)
    ensures a * (b * c) + v * c == (a * b + v) * c
  {}

  lemma {:induction false} WordsAdd(a: nat, b: nat)
    ensures Words(a + b) == Words(a) * Words(b)
  {
    if a > 0 {
      WordsAdd(a - 1, b);
      Scale256(Words(a - 1), Words(b));
    }
  }

  lemma {:induction false} Scale256(x: nat, y: nat)
    ensures 256 * (x * y) == (256 * x) * y
  {}

  lemma {:induction false} WordsIsPow2(k: nat)
    ensures Words(k) == Pow2(8 * k)
  {
    if k > 0 {
      WordsIsPow2(k - 1);
      Pow2Add(8, 8 * (k - 1));
      assert Pow2(8) == 256;
    }
  }

  /** The last byte of a word is its value modulo 256. */
  lemma {:induction false} ValSnoc(s: seq<Byte>)
    requires |s| > 0
    ensures Val(s) == Val(s[..|s| - 1]) * 256 + s[|s| - 1]
  {
    var last := s[|s| - 1..];
    ValConcat(s[..|s| - 1], last);
    assert s == s[..|s| - 1] + last;
    assert Words(1) == 256 * Words(0);
    assert last[1..] == [] && Val(last) == last[0] * Words(0) + 0;
  }

  /** A word whose digits from `i` on changed. */
  lemma {:induction false} ValSplit(s: seq<Byte>, i: nat)
    requires i <= |s|
    ensures Val(s) == Val(s[..i]) * Words(|s| - i) + Val(s[i..])
  {
    ValConcat(s[..i], s[i..]);
    assert s == s[..i] + s[i..];
  }

  lemma {:induction false} ValStep(s: seq<Byte>, i: nat)
    requires i < |s|
    ensures Val(s[i..]) == s[i] * Words(|s| - i - 1) + Val(s[i + 1..])
  {
    assert s[i..][1..] == s[i + 1..];
  }

  lemma {:induction false} ValUpdate(s: seq<Byte>, j: nat, b: Byte)
    requires j < |s|
    ensures Val(s[j := b]) == Val(s) + (b - s[j]) * Words(|s| - j - 1)
  {
    var t := s[j := b];
    ValSplit(s, j);
    ValSplit(t, j);
    ValStep(s, j);
    ValStep(t, j);
    assert t[..j] == s[..j] && t[j + 1..] == s[j + 1..];
    Shift(s[j], b, Words(|s| - j - 1));
  }

  lemma {:induction false} Shift(x: int, y: int, w: nat)
    ensures y * w == x * w + (y - x) * w
  {}

  // ----- Comparison

  /** Lexicographic comparison, as slices compare. */
  predicate Less(a: seq<Byte>, b: seq<Byte>)
    requires |a| == |b|
  {
    |a| > 0 && (a[0] < b[0] || (a[0] == b[0] && Less(a[1..], b[1..])))
  }

  /** On words of one width lexicographic order is numeric order. */
  lemma {:induction false} LessIsNumeric(a: seq<Byte>, b: seq<Byte>)
    requires |a| == |b|
    ensures Less(a, b) <==> Val(a) < Val(b)
  {
    if |a| > 0 {
      var w := Words(|a| - 1);
      LessIsNumeric(a[1..], b[1..]);
      ValBound(a[1..]);
      ValBound(b[1..]);
      Lexicographic(a[0], b[0], Val(a[1..]), Val(b[1..]), w);
    }
  }

  lemma {:induction false} Lexicographic(x: nat, y: nat, u: nat, v: nat, w: nat)
    requires u < w && v < w
    ensures x * w + u < y * w + v <==> x < y || (x == y && u < v)
  {
    if x < y {
      MulMono(x + 1, y, w);
    } else if x > y {
      MulMono(y + 1, x, w);
    }
  }

  // ----- Addition and subtraction

  /** Splitting a digit sum into digit and carry keeps its weight. */
  lemma {:induction false} Carry(d: nat, w: nat)
    ensures (d % 256) * w + (d / 256) * (256 * w) == d * w
  {
    var q, r := d / 256, d % 256;
    assert d == 256 * q + r;
    assert q * (256 * w) == (256 * q) * w;
    assert r * w + (256 * q) * w == (r + 256 * q) * w;
  }

  /** Add one; `overflow` reports the carry out of the top byte. */
  method AddOne(a: seq<Byte>) returns (r: seq<Byte>, overflow: bool)
    ensures |r| == |a|
    ensures Val(r) + (if overflow then Words(|a|) else 0) == Val(a) + 1
  {
    r := a;
    var carry := 1;
    var i := |a|;
    while i > 0
      invariant 0 <= i <= |a| == |r| && carry == 1
      invariant r[..i] == a[..i]
      invariant Val(r[i..]) + Words(|a| - i) == Val(a[i..]) + 1
    {
      i := i - 1;
      ValStep(a, i);
      ghost var rest := r[i + 1..];
      var sum: nat := r[i] as int + carry;
      Carry(sum, Words(|a| - i - 1));
      r := r[i := sum % 256];
      carry := sum / 256;
      assert r[i + 1..] == rest;
      ValStep(r, i);
      AddDigit(a[i], 1, Words(|a| - i - 1));
      if carry == 0 {
        break;
      }
    }
    overflow := carry != 0;
    ValSplit(a, i);
    ValSplit(r, i);
    assert carry != 0 ==> r[i..] == r && a[i..] == a;
  }

  lemma {:induction false} AddDigits(x: nat, y: nat, z: nat, w: nat)
    ensures (x + y + z) * w == x * w + y * w + z * w
  {}

  /** Sum modulo the word size; the carry out of the top byte is dropped. */
  method AddChainWork(a: seq<Byte>, b: seq<Byte>) returns (r: seq<Byte>)
    requires |a| == |b|
    ensures |r| == |a|
    ensures Val(r) == (Val(a) + Val(b)) % Words(|a|)
  {
    r := seq(|a|, _ => 0);
    var carry := 0;
    var i := |a|;
    while i > 0
      invariant 0 <= i <= |a| == |r| && 0 <= carry <= 1
      invariant Val(r[i..]) + carry * Words(|a| - i) == Val(a[i..]) + Val(b[i..])
    {
      i := i - 1;
      ghost var w := Words(|a| - i - 1);
      ghost var rest := r[i + 1..];
      ValStep(a, i);
      ValStep(b, i);
      var sum: nat := a[i] as int + b[i] as int + carry;
      Carry(sum, w);
      AddDigits(a[i], b[i], carry, w);
      r := r[i := sum % 256];
      carry := sum / 256;
      assert r[i + 1..] == rest;
      ValStep(r, i);
    }
    assert r[i..] == r && a[i..] == a && b[i..] == b;
    ValBound(r);
    DivUnique(Val(a) + Val(b), Words(|a|), carry, Val(r));
  }

  /** Difference; a borrow out of the top byte wraps around. */
  method Sub(a: seq<Byte>, b: seq<Byte>) returns (r: seq<Byte>)
    requires |a| == |b|
    ensures |r| == |a|
    ensures Val(r) == Val(a) - Val(b) + (if Val(a) < Val(b) then Words(|a|) else 0)
  {
    r := seq(|a|, _ => 0);
    var borrow := 0;
    var i := |a|;
    while i > 0
      invariant 0 <= i <= |a| == |r| && 0 <= borrow <= 1
      invariant Val(r[i..]) + Val(b[i..]) == Val(a[i..]) + borrow * Words(|a| - i)
    {
      i := i - 1;
      ghost var w := Words(|a| - i - 1);
      ghost var rest := r[i + 1..];
      ghost var before := borrow;
      ValStep(a, i);
      ValStep(b, i);
      var diff := a[i] - b[i] - borrow;
      if diff < 0 {
        r := r[i := diff + 256];
        borrow := 1;
      } else {
        r := r[i := diff];
        borrow := 0;
      }
      assert r[i + 1..] == rest;
      ValStep(r, i);
      SubDigit(r[i], a[i], b[i], before, borrow, w);
    }
    assert r[i..] == r && a[i..] == a && b[i..] == b;
    ValBound(r);
  }

  lemma {:induction false} SubDigit(r: int, a: int, b: int, before: int, borrow: int, w: nat)
    requires r + b + before == a + 256 * borrow
    ensures r * w + b * w + before * w == a * w + borrow * (256 * w)
  {
    assert (r + b + before) * w == r * w + b * w + before * w;
    assert (a + 256 * borrow) * w == a * w + borrow * (256 * w);
  }

  // ----- Single bits

  /** Bit `k` of a word, counted from the least significant end. */
  function BitAt(s: seq<Byte>, k: nat): nat
    requires k < 8 * |s|
  {
    (s[|s| - 1 - k / 8] / Pow2(k % 8)) % 2
  }

  /** The byte-and-shift access reads the binary digit of the number. */
  lemma {:induction false} BitAtIsDigit(s: seq<Byte>, k: nat)
    requires k < 8 * |s|
    ensures BitAt(s, k) == Shr(Val(s), k) % 2
  {
    var j, r := k / 8, k % 8;
    var high := s[..|s| - j];
    TopBytes(s, j);
    ValSnoc(high);
    var b := high[|high| - 1];
    var x := Val(high[..|high| - 1]);
    DivDiv(Val(s), Words(j), Pow2(r));
    WordsIsPow2(j);
    Pow2Add(8 * j, r);
    ShrIsDiv(Val(s), k);
    LowBits(x, b, r);
  }

  lemma {:induction false} TopBytes(s: seq<Byte>, j: nat)
    requires j <= |s|
    ensures Val(s) / Words(j) == Val(s[..|s| - j])
  {
    ValSplit(s, |s| - j);
    ValBound(s[|s| - j..]);
    DivUnique(Val(s), Words(j), Val(s[..|s| - j]), Val(s[|s| - j..]));
  }

  /** Within the last byte, higher bytes do not disturb a bit. */
  lemma {:induction false} LowBits(x: nat, b: nat, r: nat)
    requires r < 8
    ensures ((x * 256 + b) / Pow2(r)) % 2 == (b / Pow2(r)) % 2
  {
    ByteSplit(r);
    HigherBits(x, b, Pow2(r), Pow2(7 - r));
  }

  lemma {:induction false} ByteSplit(r: nat)
    requires r < 8
    ensures (2 * Pow2(7 - r)) * Pow2(r) == 256
  {
    Pow2Add(8 - r, r);
    assert Pow2(8) == 256;
  }

  lemma {:induction false} HigherBits(x: nat, b: nat, p: nat, m: nat)
    requires p > 0 && (2 * m) * p == 256
    ensures ((x * 256 + b) / p) % 2 == (b / p) % 2
  {
    assert x * 256 == (2 * (x * m)) * p by {
      Assoc(x, 2 * m, p);
      Swap(x, m);
    }
    EvenPart(x * m, b, p, x * 256 + b);
  }

  lemma {:induction false} Swap(x: nat, m: nat)
    ensures x * (2 * m) == 2 * (x * m)
  {}

  lemma {:induction false} EvenPart(y: nat, b: nat, p: nat, v: nat)
    requires p > 0 && v == (2 * y) * p + b
    ensures (v / p) % 2 == (b / p) % 2
  {
    Combine(2 * y, b, p);
  }

  lemma {:induction false} Assoc(a: nat, b: nat, c: nat)
    ensures a * (b * c) == (a * b) * c
  {}

  lemma {:induction false} Combine(q: nat, b: nat, d: nat)
    requires d > 0
    ensures (q * d + b) / d == q + b / d
  {
    DivMod(b, d);
    AddDigit(q, b / d, d);
    DivUnique(q * d + b, d, q + b / d, b % d);
  }

  /** `b | (1 << r)` on a byte. */
  function OrBit(b: Byte, r: nat): (o: int)
    requires r < 8
  {
    if (b / Pow2(r)) % 2 == 1 then b else b + Pow2(r)
  }

  lemma {:induction false} OrBitIsByte(b: Byte, r: nat)
    requires r < 8
    ensures 0 <= OrBit(b, r) < 256
  {
    var p := Pow2(r);
    DivMod(b, p);
    ByteSplit(r);
    var h := Pow2(7 - r);
    if (b / p) % 2 == 0 {
      var q := b / p;
      if q >= 2 * h {
        MulMono(2 * h, q, p);
      }
      assert q + 1 < 2 * h || q + 2 <= 2 * h;
      MulMono(q + 2, 2 * h, p);
      AddDigit(q, 2, p);
    }
  }

  /** Setting a clear bit `k` adds `2^k`. */
  lemma {:induction false} SetBit(s: seq<Byte>, k: nat)
    requires k < 8 * |s| && BitAt(s, k) == 0
    ensures var j := |s| - 1 - k / 8;
            var o := OrBit(s[j], k % 8);
            0 <= o < 256 && Val(s[j := o]) == Val(s) + Pow2(k)
  {
    var j := |s| - 1 - k / 8;
    OrBitIsByte(s[j], k % 8);
    ValUpdate(s, j, OrBit(s[j], k % 8));
    WordsIsPow2(k / 8);
    Pow2Add(k % 8, 8 * (k / 8));
  }

  // ----- Long division

  /** `rem <<= 1; rem |= bit` on a fixed-width word: the bit shifted out is lost. */
  method ShiftIn(rem: seq<Byte>, bit: nat) returns (r: seq<Byte>)
    requires |rem| > 0 && bit < 2
    ensures |r| == |rem|
    ensures Val(r) == (2 * Val(rem) + bit) % Words(|rem|)
  {
    r := rem;
    var carry := 0;
    var i := |rem|;
    while i > 0
      invariant 0 <= i <= |rem| == |r| && 0 <= carry <= 1
      invariant r[..i] == rem[..i]
      invariant Val(r[i..]) + carry * Words(|rem| - i) == 2 * Val(rem[i..])
      invariant i < |rem| ==> r[|rem| - 1] % 2 == 0
    {
      i := i - 1;
      ghost var was, c := r, carry;
      var shifted := (rem[i] as int * 2) % 256 + carry;
      r := r[i := shifted];
      carry := rem[i] / 128;
      ShiftStep(rem, was, r, i, c, carry);
    }
    assert r[i..] == r && rem[i..] == rem;
    OrLow(r, bit);
    r := r[|r| - 1 := r[|r| - 1] + bit];
    ValBound(r);
    DivUnique(2 * Val(rem) + bit, Words(|rem|), carry, Val(r));
  }

  /** One byte further up. */
  lemma {:induction false} ShiftStep(rem: seq<Byte>, was: seq<Byte>, r: seq<Byte>, i: nat, carry: nat, next: nat)
    requires i < |rem| == |was| && carry <= 1 && next == rem[i] / 128
    requires r == was[i := (rem[i] as int * 2) % 256 + carry]
    requires Val(was[i + 1..]) + carry * Words(|rem| - i - 1) == 2 * Val(rem[i + 1..])
    ensures Val(r[i..]) + next * Words(|rem| - i) == 2 * Val(rem[i..])
  {
    ValStep(rem, i);
    ValStep(r, i);
    assert r[i + 1..] == was[i + 1..];
    ShiftDigit(rem[i], carry, Words(|rem| - i - 1));
  }

  lemma {:induction false} ShiftDigit(x: Byte, carry: nat, w: nat)
    requires carry <= 1
    ensures ((x as int * 2) % 256 + carry) * w + (x / 128) * (256 * w) == 2 * (x * w) + carry * w
  {
    var sum: nat := 2 * x as int + carry;
    assert sum % 256 == (x as int * 2) % 256 + carry && sum / 256 == x / 128;
    Carry(sum, w);
    AddDigits(x, x, carry, w);
  }

  lemma {:induction false} OrLow(r: seq<Byte>, bit: nat)
    requires |r| > 0 && bit < 2 && r[|r| - 1] % 2 == 0
    ensures Val(r[|r| - 1 := r[|r| - 1] + bit]) == Val(r) + bit
  {
    ValUpdate(r, |r| - 1, r[|r| - 1] + bit);
    assert Words(0) == 1;
  }

  /** The division loop with the bits from `bit` up done: `v` is divided by `d`, `q` is the quotient so far. */
  ghost predicate Dividing(v: nat, d: nat, bit: nat, q: nat, quotient: nat, rem: nat)
  {
    quotient == q * Pow2(bit) && Shr(v, bit) == q * d + rem && rem < d
  }

  lemma {:induction false} ShrAtMost(v: nat, k: nat)
    ensures Shr(v, k) <= v
  {
    if k > 0 {
      ShrAtMost(v, k - 1);
    }
  }

  /** The shifted remainder still fits the word, because it never exceeds the bits read so far. */
  lemma {:induction false} RoomToShift(v: nat, d: nat, bit: nat, q: nat, quotient: nat, rem: nat)
    requires Dividing(v, d, bit + 1, q, quotient, rem)
    ensures Shr(v, bit) == 2 * Shr(v, bit + 1) + Shr(v, bit) % 2
    ensures 2 * rem + Shr(v, bit) % 2 <= v
  {
    ShrAtMost(v, bit);
    MulMono(0, q, d);
  }

  /** The quotient bit about to be decided is still clear. */
  lemma {:induction false} BitIsClear(q: nat, bit: nat)
    ensures q * Pow2(bit + 1) == (2 * q) * Pow2(bit)
    ensures Shr(q * Pow2(bit + 1), bit) % 2 == 0
  {
    Assoc(q, 2, Pow2(bit));
    ShrMultiple(2 * q, bit);
  }

  lemma {:induction false} QuotientZero(v: nat, d: nat, bit: nat, q: nat, quotient: nat, rem: nat, rem': nat)
    requires Dividing(v, d, bit + 1, q, quotient, rem) && rem' == 2 * rem + Shr(v, bit) % 2 && rem' < d
    ensures Dividing(v, d, bit, 2 * q, quotient, rem')
  {
    BitIsClear(q, bit);
    Assoc(2, q, d);
  }

  lemma {:induction false} QuotientOne(v: nat, d: nat, bit: nat, q: nat, quotient: nat, rem: nat, rem': nat)
    requires Dividing(v, d, bit + 1, q, quotient, rem) && rem' + d == 2 * rem + Shr(v, bit) % 2
    ensures Dividing(v, d, bit, 2 * q + 1, quotient + Pow2(bit), rem')
  {
    BitIsClear(q, bit);
    Assoc(2, q, d);
    AddDigit(2 * q, 1, d);
    AddDigit(2 * q, 1, Pow2(bit));
  }

  lemma {:induction false} DivisionStarts(num: seq<Byte>, d: nat)
    requires d > 0
    ensures Dividing(Val(num), d, 8 * |num|, 0, 0, 0)
  {
    ValBound(num);
    WordsIsPow2(|num|);
    ShrIsDiv(Val(num), 8 * |num|);
    DivUnique(Val(num), Pow2(8 * |num|), 0, Val(num));
  }

  lemma {:induction false} ZeroWord(s: seq<Byte>)
    ensures Val(s) == 0 <==> s == seq(|s|, _ => 0)
  {
    if |s| > 0 {
      ZeroWord(s[1..]);
      MulMono(1, if s[0] == 0 then 1 else s[0], Words(|s| - 1));
      assert s == [s[0]] + s[1..];
    }
  }

  /** Floor division by bitwise long division; a zero divisor gives all ones. */
  method Div(num: seq<Byte>, den: seq<Byte>) returns (quotient: seq<Byte>)
    requires |num| == |den| > 0
    ensures |quotient| == |num|
    ensures Val(den) != 0 ==> Val(quotient) == Val(num) / Val(den)
    ensures Val(den) == 0 ==> quotient == seq(|num|, _ => 255)
  {
    ZeroWord(den);
    if den == seq(|den|, _ => 0) {
      return seq(|num|, _ => 255);
    }
    quotient := seq(|num|, _ => 0);
    var rem: seq<Byte> := seq(|num|, _ => 0);
    ZeroWord(quotient);
    DivisionStarts(num, Val(den));
    ghost var q: nat := 0;
    var bit := 8 * |num|;
    while bit > 0
      invariant 0 <= bit <= 8 * |num| && |quotient| == |num| == |rem|
      invariant Dividing(Val(num), Val(den), bit, q, Val(quotient), Val(rem))
    {
      bit := bit - 1;
      quotient, rem, q := DivideBit(num, den, bit, quotient, rem, q);
    }
    assert Pow2(0) == 1;
    DivUnique(Val(num), Val(den), q, Val(rem));
  }

  /** One round of the long division: shift, compare, subtract, set the quotient bit. */
  method DivideBit(num: seq<Byte>, den: seq<Byte>, bit: nat, quotient: seq<Byte>, rem: seq<Byte>, ghost q: nat)
    returns (quotient': seq<Byte>, rem': seq<Byte>, ghost q': nat)
    requires |num| == |den| == |quotient| == |rem| > 0 && bit < 8 * |num|
    requires Dividing(Val(num), Val(den), bit + 1, q, Val(quotient), Val(rem))
    ensures |quotient'| == |num| == |rem'|
    ensures Dividing(Val(num), Val(den), bit, q', Val(quotient'), Val(rem'))
  {
    RoomToShift(Val(num), Val(den), bit, q, Val(quotient), Val(rem));
    BitAtIsDigit(num, bit);
    ValBound(num);
    ghost var doubled: nat := 2 * Val(rem) + BitAt(num, bit);
    DivUnique(doubled, Words(|num|), 0, doubled);
    rem' := ShiftIn(rem, BitAt(num, bit));
    LessIsNumeric(rem', den);
    if Less(rem', den) {
      quotient', q' := quotient, 2 * q;
      QuotientZero(Val(num), Val(den), bit, q, Val(quotient), Val(rem), Val(rem'));
    } else {
      rem' := Sub(rem', den);
      BitAtIsDigit(quotient, bit);
      BitIsClear(q, bit);
      SetBit(quotient, bit);
      var j := |num| - 1 - bit / 8;
      quotient', q' := quotient[j := OrBit(quotient[j], bit % 8)], 2 * q + 1;
      QuotientOne(Val(num), Val(den), bit, q, Val(quotient), Val(rem), Val(rem'));
    }
  }
}
