/** Chain work of a target and the difficulty retarget, before compact encoding. */
module Difficulty {
  import opened Bytes
  import opened Powers
  import opened WideInt

  // ----- Work

  /** The work a target stands for: the number of words divided by one more than the target. */
  function WorkOf(target: nat, width: nat): nat
  {
    if target == 0 then Words(width) - 1 else Words(width) / (target + 1)
  }

  /** A larger target never stands for more work. */
  lemma {:induction false} WorkAntitone(t: nat, t': nat, width: nat)
    requires t <= t' && width > 0
    ensures WorkOf(t', width) <= WorkOf(t, width)
  {
    var w := Words(width);
    assert w == 256 * Words(width - 1);
    if t > 0 {
      DivAntitone(w, t + 1, t' + 1);
    } else if t' > 0 {
      DivAntitone(w, 2, t' + 1);
    }
  }

  lemma {:induction false} DivAntitone(x: nat, a: nat, b: nat)
    requires 0 < a <= b
    ensures x / b <= x / a
  {
    DivMod(x, a);
    DivMod(x, b);
    if x / b > x / a {
      MulMono(x / a + 1, x / b, a);
      AddDigit(x / a, 1, a);
      MulMonoRight(x / b, a, b);
    }
  }

  lemma {:induction false} MulMonoRight(q: nat, a: nat, b: nat)
    requires a <= b
    ensures q * a <= q * b
  {
    MulMono(a, b, q);
  }

  /** Every target that fits the word stands for some work. */
  lemma {:induction false} WorkPositive(t: nat, width: nat)
    requires t < Words(width) && width > 0
    ensures WorkOf(t, width) >= 1
  {
    var w := Words(width);
    assert w == 256 * Words(width - 1);
    if t > 0 && w / (t + 1) == 0 {
      DivMod(w, t + 1);
    }
  }

  /** Exact work by `~target / (target + 1) + 1`. */
  method CalculateWork(t: seq<Byte>) returns (work: seq<Byte>)
    requires |t| > 0
    ensures |work| == |t|
    ensures Val(work) == WorkOf(Val(t), |t|) >= 1
  {
    ValBound(t);
    WorkPositive(Val(t), |t|);
    ZeroWord(t);
    if t == seq(|t|, _ => 0) {
      work := seq(|t|, _ => 255);
      OnesWord(work);
      return;
    }
    var plusOne, overflow := AddOne(t);
    if overflow {
      ValBound(plusOne);
      work := seq(|t| - 1, _ => 0) + [1];
      OneWord(|t| - 1);
      DivUnique(Words(|t|), Val(t) + 1, 1, 0);
      return;
    }
    var not := [];
    var i := 0;
    while i < |t|
      invariant 0 <= i <= |t| && |not| == i
      invariant Val(not) + Val(t[..i]) + 1 == Words(i)
    {
      not := not + [255 - t[i]];
      NotStep(not, t, i);
      i := i + 1;
    }
    assert t[..i] == t;
    var quotient := Div(not, plusOne);
    WorkFormula(Val(t), Val(not), Words(|t|));
    var lost;
    work, lost := AddOne(quotient);
    ValBound(work);
    AtMostHalf(Words(|t|), Val(t) + 1);
  }

  lemma {:induction false} NotStep(not: seq<Byte>, t: seq<Byte>, i: nat)
    requires i < |t| && |not| == i + 1 && not[i] == 255 - t[i]
    requires Val(not[..i]) + Val(t[..i]) + 1 == Words(i)
    ensures Val(not) + Val(t[..i + 1]) + 1 == Words(i + 1)
  {
    ValSnoc(not);
    ValSnoc(t[..i + 1]);
    assert t[..i + 1][..i] == t[..i];
  }

  lemma {:induction false} OnesWord(s: seq<Byte>)
    requires s == seq(|s|, _ => 255)
    ensures Val(s) == Words(|s|) - 1
  {
    if |s| > 0 {
      OnesWord(s[1..]);
    }
  }

  lemma {:induction false} OneWord(n: nat)
    ensures Val(seq(n, _ => 0) + [1]) == 1
  {
    var z: seq<Byte> := seq(n, _ => 0);
    ZeroWord(z);
    ValSnoc(z + [1]);
    assert (z + [1])[..n] == z;
  }

  lemma {:induction false} WorkFormula(t: nat, not: nat, w: nat)
    requires not + t + 1 == w
    ensures not / (t + 1) + 1 == w / (t + 1)
  {
    DivMod(not, t + 1);
    AddDigit(not / (t + 1), 1, t + 1);
    DivUnique(w, t + 1, not / (t + 1) + 1, not % (t + 1));
  }

  lemma {:induction false} AtMostHalf(w: nat, d: nat)
    requires d >= 2 && w > 0
    ensures w / d < w
  {
    DivAntitone(w, 2, d);
  }

  // ----- Multiply and divide on 64-bit limbs

  /** The number little-endian limbs stand for. */
  function LimbVal(l: seq<nat>): nat
  {
    if |l| == 0 then 0 else l[0] + U64 * LimbVal(l[1..])
  }

  function LimbPow(k: nat): (p: nat)
    ensures p >= 1
  {
    if k == 0 then 1 else U64 * LimbPow(k - 1)
  }

  ghost predicate AreLimbs(l: seq<nat>)
  {
    forall i :: 0 <= i < |l| ==> l[i] < U64
  }

  lemma {:induction false} LimbSnoc(l: seq<nat>, x: nat)
    ensures LimbVal(l + [x]) == LimbVal(l) + x * LimbPow(|l|)
  {
    if |l| == 0 {
      assert l + [x] == [x];
      assert [x][1..] == [];
    } else {
      LimbSnoc(l[1..], x);
      assert (l + [x])[1..] == l[1..] + [x];
      Assoc(x, U64, LimbPow(|l| - 1));
      Assoc(U64, x, LimbPow(|l| - 1));
    }
  }

  lemma {:induction false} LimbPowIsWords(k: nat)
    ensures LimbPow(k) == Words(8 * k)
  {
    if k > 0 {
      LimbPowIsWords(k - 1);
      WordsAdd(8, 8 * (k - 1));
      assert Words(8) == U64;
    }
  }

  lemma {:induction false} LimbBound(l: seq<nat>)
    requires AreLimbs(l)
    ensures LimbVal(l) < LimbPow(|l|)
  {
    if |l| > 0 {
      LimbBound(l[1..]);
    }
  }

  /** Big-endian bytes of a number, as `to_be_bytes`. */
  function BeBytes(v: nat, n: nat): (s: seq<Byte>)
    ensures |s| == n
  {
    if n == 0 then [] else BeBytes(v / 256, n - 1) + [v % 256]
  }

  lemma {:induction false} BeBytesVal(v: nat, n: nat)
    requires v < Words(n)
    ensures Val(BeBytes(v, n)) == v
  {
    if n > 0 {
      BeBytesVal(v / 256, n - 1);
      ValSnoc(BeBytes(v, n));
      assert BeBytes(v, n)[..n - 1] == BeBytes(v / 256, n - 1);
    }
  }

  method ToLimbs(target: seq<Byte>) returns (limbs: seq<nat>)
    requires |target| % 8 == 0
    ensures |limbs| == |target| / 8 && AreLimbs(limbs) && LimbVal(limbs) == Val(target)
  {
    limbs := [];
    var i := 0;
    while i < |target| / 8
      invariant 0 <= i <= |target| / 8 && |limbs| == i && AreLimbs(limbs)
      invariant LimbVal(limbs) == Val(target[|target| - 8 * i..])
    {
      var offset := |target| - (i + 1) * 8;
      var chunk := target[offset..offset + 8];
      ChunkStep(target, offset, limbs);
      limbs := limbs + [Val(chunk)];
      i := i + 1;
    }
    assert target[|target| - 8 * i..] == target;
  }

  lemma {:induction false} ChunkStep(target: seq<Byte>, offset: nat, limbs: seq<nat>)
    requires offset + 8 <= |target| && |target| - offset == 8 * (|limbs| + 1)
    requires LimbVal(limbs) == Val(target[offset + 8..])
    ensures Val(target[offset..offset + 8]) < U64
    ensures LimbVal(limbs + [Val(target[offset..offset + 8])]) == Val(target[offset..])
  {
    var chunk := target[offset..offset + 8];
    ValConcat(chunk, target[offset + 8..]);
    assert target[offset..] == chunk + target[offset + 8..];
    ValBound(chunk);
    assert Words(8) == U64;
    LimbPowIsWords(|limbs|);
    LimbSnoc(limbs, Val(chunk));
  }

  method FromLimbs(limbs: seq<nat>) returns (bytes: seq<Byte>)
    requires AreLimbs(limbs)
    ensures |bytes| == 8 * |limbs| && Val(bytes) == LimbVal(limbs)
  {
    var n := 8 * |limbs|;
    bytes := seq(n, _ => 0);
    var i := 0;
    while i < |limbs|
      invariant 0 <= i <= |limbs| && |bytes| == n
      invariant Val(bytes[n - 8 * i..]) == LimbVal(limbs[..i])
    {
      var offset := n - (i + 1) * 8;
      var be := BeBytes(limbs[i], 8);
      ghost var rest := bytes[offset + 8..];
      assert Words(8) == U64;
      BeBytesVal(limbs[i], 8);
      bytes := bytes[..offset] + be + bytes[offset + 8..];
      assert bytes[offset..] == be + rest;
      ValConcat(be, rest);
      LimbPowIsWords(i);
      LimbSnoc(limbs[..i], limbs[i]);
      assert limbs[..i + 1] == limbs[..i] + [limbs[i]];
      i := i + 1;
    }
    assert bytes[n - 8 * i..] == bytes && limbs[..i] == limbs;
  }

  /** Multiply in place from the low limb up; the carry out of the top limb is dropped. */
  method MulLimbs(limbs: seq<nat>, numerator: nat) returns (out: seq<nat>)
    requires AreLimbs(limbs) && numerator < U64
    ensures |out| == |limbs| && AreLimbs(out)
    ensures LimbVal(out) == (LimbVal(limbs) * numerator) % LimbPow(|limbs|)
  {
    out := [];
    var carry := 0;
    var i := 0;
    while i < |limbs|
      invariant 0 <= i <= |limbs| && |out| == i && AreLimbs(out)
      invariant 0 <= carry < U64
      invariant LimbVal(out) + carry * LimbPow(i) == LimbVal(limbs[..i]) * numerator
    {
      var product := limbs[i] * numerator + carry;
      MulLimb(limbs, i, numerator, carry, product, out);
      out := out + [product % U64];
      carry := product / U64;
      i := i + 1;
    }
    assert limbs[..i] == limbs;
    LimbBound(out);
    DivUnique(LimbVal(limbs) * numerator, LimbPow(|limbs|), carry, LimbVal(out));
  }

  /** One limb further up. */
  lemma {:induction false} MulLimb(limbs: seq<nat>, i: nat, numerator: nat, carry: nat, product: nat, out: seq<nat>)
    requires i < |limbs| && AreLimbs(limbs) && numerator < U64 && carry < U64 && |out| == i
    requires product == limbs[i] * numerator + carry
    requires LimbVal(out) + carry * LimbPow(i) == LimbVal(limbs[..i]) * numerator
    ensures product / U64 < U64
    ensures LimbVal(out + [product % U64]) + (product / U64) * LimbPow(i + 1) == LimbVal(limbs[..i + 1]) * numerator
  {
    ProductFits(limbs[i], numerator, carry);
    assert limbs[..i + 1] == limbs[..i] + [limbs[i]];
    LimbSnoc(limbs[..i], limbs[i]);
    LimbSnoc(out, product % U64);
    MulStep(product, limbs[i], numerator, carry, LimbPow(i), LimbVal(limbs[..i]), LimbVal(out));
  }

  lemma {:induction false} ProductFits(limb: nat, numerator: nat, carry: nat)
    requires limb < U64 && numerator < U64 && carry < U64
    ensures limb * numerator + carry < U64 * U64
    ensures (limb * numerator + carry) / U64 < U64
  {
    MulMono(limb, U64 - 1, numerator);
    MulMonoRight(U64 - 1, numerator, U64 - 1);
    assert (U64 - 1) * (U64 - 1) + U64 - 1 < U64 * U64;
  }

  lemma {:induction false} MulStep(product: nat, limb: nat, numerator: nat, carry: nat, p: nat, low: nat, out: nat)
    requires product == limb * numerator + carry
    requires out + carry * p == low * numerator
    ensures out + (product % U64) * p + (product / U64) * (U64 * p) == (low + limb * p) * numerator
  {
    var q, r := product / U64, product % U64;
    assert product == q * U64 + r;
    Assoc(q, U64, p);
    AddDigit(q * U64, r, p);
    AddDigit(limb * numerator, carry, p);
    AddDigit(low, limb * p, numerator);
    assert (limb * numerator) * p == (limb * p) * numerator;
  }

  /** Divide in place from the high limb down. */
  method DivLimbs(limbs: seq<nat>, denominator: nat) returns (out: seq<nat>)
    requires AreLimbs(limbs) && 0 < denominator < U64
    ensures |out| == |limbs| && AreLimbs(out)
    ensures LimbVal(out) == LimbVal(limbs) / denominator
  {
    out := limbs;
    var remainder := 0;
    var i := |limbs|;
    while i > 0
      invariant 0 <= i <= |limbs| == |out| && AreLimbs(out)
      invariant 0 <= remainder < denominator
      invariant out[..i] == limbs[..i]
      invariant LimbVal(limbs[i..]) == LimbVal(out[i..]) * denominator + remainder
    {
      i := i - 1;
      ghost var rest := out[i + 1..];
      var dividend := remainder * U64 + out[i];
      var digit := dividend / denominator;
      DigitFits(remainder, limbs[i], denominator);
      DivMod(dividend, denominator);
      assert limbs[i..][1..] == limbs[i + 1..];
      DivLimbStep(LimbVal(limbs[i + 1..]), LimbVal(rest), denominator, remainder, limbs[i], digit,
                  dividend % denominator);
      out := out[i := digit];
      assert out[i..] == [digit] + rest;
      remainder := dividend % denominator;
    }
    assert limbs[i..] == limbs && out[i..] == out;
    DivUnique(LimbVal(limbs), denominator, LimbVal(out), remainder);
  }

  lemma {:induction false} DigitFits(remainder: nat, limb: nat, denominator: nat)
    requires remainder < denominator && limb < U64
    ensures (remainder * U64 + limb) / denominator < U64
  {
    var x := remainder * U64 + limb;
    MulMono(remainder + 1, denominator, U64);
    assert x < denominator * U64;
    DivMod(x, denominator);
    if x / denominator >= U64 {
      MulMono(U64, x / denominator, denominator);
    }
  }

  lemma {:induction false} DivLimbStep(high: nat, out: nat, d: nat, r: nat, limb: nat, digit: nat, r': nat)
    requires high == out * d + r && r * U64 + limb == digit * d + r'
    ensures limb + U64 * high == (digit + U64 * out) * d + r'
  {
    assert U64 * (out * d + r) == U64 * (out * d) + r * U64;
    Assoc(U64, out, d);
    AddDigit(digit, U64 * out, d);
  }

  /** Scale a target by a ratio: the product is taken modulo the word size, then divided. */
  method MultiplyTargetByRatio(target: seq<Byte>, numerator: nat, denominator: nat) returns (r: seq<Byte>)
    requires |target| % 8 == 0 && numerator < U64 && 0 < denominator < U64
    ensures |r| == |target|
    ensures Val(r) == ((Val(target) * numerator) % Words(|target|)) / denominator
  {
    var limbs := ToLimbs(target);
    limbs := MulLimbs(limbs, numerator);
    limbs := DivLimbs(limbs, denominator);
    r := FromLimbs(limbs);
    LimbPowIsWords(|target| / 8);
  }

  // ----- Retarget

  datatype PowParams = PowParams(limit: seq<Byte>, timespan: nat, noRetargeting: bool)

  const TWO_WEEKS: nat := 14 * 24 * 60 * 60

  /** The measured timespan, held within a factor of four of the intended one. */
  function ClampedTimespan(first: nat, last: nat, timespan: nat): (t: int)
    ensures timespan / 4 <= t <= timespan * 4
  {
    var actual := last - first;
    if actual < timespan / 4 then timespan / 4
    else if actual > timespan * 4 then timespan * 4
    else actual
  }

  function Min(a: int, b: int): int
  {
    if a > b then b else a
  }

  /** Scale a target, but not above the limit. */
  method Rescale(prior: seq<Byte>, limit: seq<Byte>, actual: nat, timespan: nat) returns (target: seq<Byte>)
    requires |prior| == |limit| == 32 && actual < U64 && 0 < timespan < U64
    ensures |target| == 32 && Val(target) == Min(((Val(prior) * actual) % Words(|prior|)) / timespan, Val(limit))
  {
    target := MultiplyTargetByRatio(prior, actual, timespan);
    LessIsNumeric(limit, target);
    if Less(limit, target) {
      target := limit;
    }
  }

  predicate Retargets(params: PowParams)
  {
    params.timespan == TWO_WEEKS && (params.limit == MAINNET_LIMIT || params.limit == SIGNET_LIMIT)
  }

  /** The next target: exactly the rescaled one, capped by the limit, on every network that retargets. */
  method NextTarget(first: nat, last: nat, prior: seq<Byte>, params: PowParams) returns (target: seq<Byte>)
    requires |prior| == |params.limit| == 32
    requires 0 < params.timespan && params.timespan * 4 < U64
    ensures |target| == 32
    ensures params.noRetargeting ==> target == prior
    ensures !params.noRetargeting ==>
              var span := ClampedTimespan(first, last, params.timespan);
              var scaled := ((Val(prior) * span) % Words(|prior|)) / params.timespan;
              Val(target) == Min(scaled, Val(params.limit))
    ensures !params.noRetargeting && Retargets(params) && Val(prior) <= Val(params.limit) ==>
              Val(target) == Min(Val(prior) * ClampedTimespan(first, last, TWO_WEEKS) / TWO_WEEKS, Val(params.limit))
  {
    if params.noRetargeting {
      return prior;
    }
    target := Rescale(prior, params.limit, ClampedTimespan(first, last, params.timespan), params.timespan);
    if Retargets(params) && Val(prior) <= Val(params.limit) {
      RetargetIsExact(prior, params.limit, first, last, |prior|);
    }
  }

  /** The proof-of-work limits as `top << (256 - 8 * bytes)`. */
  function Limit(top: seq<Byte>): (s: seq<Byte>)
    requires |top| <= 32
    ensures |s| == 32
  {
    top + seq(32 - |top|, _ => 0)
  }

  const MAINNET_LIMIT := Limit([0, 0, 0, 0, 0xff, 0xff])
  const SIGNET_LIMIT := Limit([0, 0, 0x03, 0x77, 0xae])

  /** The scaled target of a network that retargets never loses its top carry, even for timestamps that
      run backwards. */
  lemma {:induction false} RetargetIsExact(prior: seq<Byte>, limit: seq<Byte>, first: nat, last: nat, n: nat)
    requires |prior| == 32 == n && limit in {MAINNET_LIMIT, SIGNET_LIMIT} && Val(prior) <= Val(limit)
    ensures var product := Val(prior) * ClampedTimespan(first, last, TWO_WEEKS);
            product % Words(n) == product
  {
    var t := ClampedTimespan(first, last, TWO_WEEKS);
    var top := if limit == MAINNET_LIMIT then [0, 0, 0, 0, 0xff, 0xff] else [0, 0, 0x03, 0x77, 0xae];
    TopVal(top, TWO_WEEKS * 4);
    LimitFits(top, n, TWO_WEEKS * 4);
    BelowWord(Val(prior), Val(limit), t, TWO_WEEKS * 4, Words(n));
  }

  lemma {:induction false} BelowWord(v: nat, limit: nat, t: nat, most: nat, w: nat)
    requires v <= limit && t <= most && limit * most < w
    ensures (v * t) % w == v * t
  {
    MulMono(v, limit, t);
    MulMonoRight(limit, t, most);
    DivUnique(v * t, w, 0, v * t);
  }

  /** The largest step up from a limit stays below `2^256`. */
  lemma {:induction false} LimitFits(top: seq<Byte>, n: nat, most: nat)
    requires |top| <= 32 == n && Val(top) * most < Words(|top|)
    ensures Val(Limit(top)) * most < Words(n)
  {
    var k, zeros := n - |top|, Limit(top)[|top|..];
    assert Limit(top) == top + zeros;
    ZeroWord(zeros);
    ValConcat(top, zeros);
    WordsAdd(|top|, k);
    ScaleUp(Val(top), most, Words(|top|), Words(k), Val(Limit(top)), Words(n));
  }

  lemma {:induction false} ScaleUp(v: nat, m: nat, p: nat, w: nat, total: nat, whole: nat)
    requires v * m < p && w > 0 && total == v * w && whole == p * w
    ensures total * m < whole
  {
    MulMono(v * m + 1, p, w);
    AddDigit(v * m, 1, w);
    assert (v * w) * m == (v * m) * w;
  }

  lemma {:induction false} TopVal(top: seq<Byte>, most: nat)
    requires top in {[0, 0, 0, 0, 0xff, 0xff], [0, 0, 0x03, 0x77, 0xae]} && most == TWO_WEEKS * 4
    ensures Val(top) * most < Words(|top|)
  {
    if |top| == 6 {
      assert Words(6) == 0x1_0000_0000_0000;
      ValFold6(top);
    } else {
      assert Words(5) == 0x100_0000_0000;
      ValFold5(top);
    }
  }

  lemma {:induction false} ValFold5(s: seq<Byte>)
    requires |s| == 5
    ensures Val(s) == (((s[0] as int * 256 + s[1]) * 256 + s[2]) * 256 + s[3]) * 256 + s[4]
  {
    ValSnoc(s);
    ValSnoc(s[..4]);
    ValSnoc(s[..3]);
    ValSnoc(s[..2]);
    ValSnoc(s[..1]);
    assert s[..4][..3] == s[..3] && s[..3][..2] == s[..2] && s[..2][..1] == s[..1] && s[..1][..0] == [];
  }

  lemma {:induction false} ValFold6(s: seq<Byte>)
    requires |s| == 6
    ensures Val(s) == ((((s[0] as int * 256 + s[1]) * 256 + s[2]) * 256 + s[3]) * 256 + s[4]) * 256 + s[5]
  {
    ValSnoc(s);
    ValFold5(s[..5]);
  }
}
