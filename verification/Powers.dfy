/** Powers of two, right shifts and the division facts shared by the other modules. */
module Powers {

  function Pow2(n: nat): (p: nat)
    ensures p >= 1
  {
    if n == 0 then 1 else 2 * Pow2(n - 1)
  }

  /** `c >> l` on an unsigned integer. */
  function Shr(c: nat, l: nat): nat
  {
    if l == 0 then c else Shr(c, l - 1) / 2
  }

  /** `c & (1 << l) != 0`. */
  predicate Bit(c: nat, l: nat)
  {
    Shr(c, l) % 2 == 1
  }

  lemma {:induction false} ShrIsDiv(c: nat, l: nat)
    ensures Shr(c, l) == c / Pow2(l)
  {
    if l > 0 {
      ShrIsDiv(c, l - 1);
      DivDiv(c, Pow2(l - 1), 2);
    }
  }

  lemma {:induction false} DivDiv(x: nat, a: nat, b: nat)
    requires a > 0 && b > 0
    ensures a * b > 0 && (x / a) / b == x / (a * b)
  {
    var q, r := x / a, x % a;
    var q', r' := q / b, q % b;
    DivMod(x, a);
    DivMod(q, b);
    assert x == q' * (a * b) + (r' * a + r) by {
      assert (q' * b + r') * a == q' * (a * b) + r' * a;
    }
    MulMono(r', b - 1, a);
    assert 0 <= r' * a + r < a * b;
    DivUnique(x, a * b, q', r' * a + r);
  }

  lemma {:induction false} MulMono(a: int, b: int, d: nat)
    requires a <= b
    ensures a * d <= b * d
  {
    assert (b - a) * d >= 0;
  }

  /** A quotient and a remainder below the divisor are the quotient and the remainder. */
  lemma {:induction false} DivUnique(x: nat, d: nat, q: nat, r: nat)
    requires d > 0 && x == q * d + r && r < d
    ensures x / d == q && x % d == r
  {
    var q', r' := x / d, x % d;
    DivMod(x, d);
    if q' < q {
      MulMono(q' + 1, q, d);
    } else if q' > q {
      MulMono(q + 1, q', d);
    }
  }

  lemma {:induction false} DivMod(x: nat, d: nat)
    requires d > 0
    ensures x == (x / d) * d + x % d
    ensures 0 <= x % d < d
    ensures 0 <= x / d
  {}

  lemma {:induction false} Pow2Add(a: nat, b: nat)
    ensures Pow2(a + b) == Pow2(a) * Pow2(b)
  {
    if a > 0 {
      Pow2Add(a - 1, b);
      DoubleLeft(Pow2(a - 1), Pow2(b));
    }
  }

  lemma {:induction false} DoubleLeft(x: nat, y: nat)
    ensures 2 * (x * y) == (2 * x) * y
  {}

  lemma {:induction false} Pow2Mono(a: nat, b: nat)
    requires a <= b
    ensures Pow2(a) <= Pow2(b)
  {
    if a < b {
      Pow2Mono(a, b - 1);
    }
  }

  /** A shift that leaves something behind bounds the power. */
  lemma {:induction false} ShrPositive(c: nat, l: nat)
    requires Shr(c, l) >= 1
    ensures Pow2(l) <= c
  {
    ShrIsDiv(c, l);
    if c < Pow2(l) {
      DivUnique(c, Pow2(l), 0, c);
    }
  }

  /** A multiple of a power of two shifts back to the factor. */
  lemma {:induction false} ShrMultiple(m: nat, l: nat)
    ensures Shr(m * Pow2(l), l) == m
  {
    ShrIsDiv(m * Pow2(l), l);
    DivUnique(m * Pow2(l), Pow2(l), m, 0);
  }

  lemma {:induction false} AddDigit(x: nat, y: nat, w: nat)
    ensures (x + y) * w == x * w + y * w
  {}

  function SaturatingSub(a: nat, b: nat): nat
  {
    if a < b then 0 else a - b
  }
}
