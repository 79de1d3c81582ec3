/** The block subsidy and the money it can ever create. */
module Subsidy {
  import opened Powers
  import opened Transactions

  const INITIAL_SUBSIDY: nat := 50_0000_0000

  /** The subsidy after a number of halvings. */
  function Halved(halvings: nat): nat
  {
    if halvings >= 64 then 0 else Shr(INITIAL_SUBSIDY, halvings)
  }

  function BlockSubsidy(interval: nat, height: nat): nat
    requires interval > 0
  {
    Halved(height / interval)
  }

  /** The subsidies of heights below `n`. */
  function Issued(interval: nat, n: nat): nat
    requires interval > 0
  {
    if n == 0 then 0 else Issued(interval, n - 1) + BlockSubsidy(interval, n - 1)
  }

  /** What one block per halving period would create. */
  function PerPeriod(q: nat): nat
  {
    if q == 0 then 0 else PerPeriod(q - 1) + Halved(q - 1)
  }

  lemma {:induction false} HalvedHalves(q: nat)
    ensures 2 * Halved(q + 1) <= Halved(q)
  {}

  /** The geometric bound, which rounding makes strict. */
  lemma {:induction false} PerPeriodBound(q: nat)
    ensures PerPeriod(q) + 2 * Halved(q) <= 2 * INITIAL_SUBSIDY
    ensures q >= 10 ==> PerPeriod(q) + 2 * Halved(q) < 2 * INITIAL_SUBSIDY
  {
    if q > 0 {
      PerPeriodBound(q - 1);
      HalvedHalves(q - 1);
      if q == 10 {
        TenthHalving(q);
      }
    }
  }

  lemma {:induction false} HalvedPositive(q: nat)
    requires q <= 10
    ensures Halved(q) == Shr(INITIAL_SUBSIDY, q) >= 1
    ensures q == 9 ==> Halved(q) == 9765625
    ensures q == 10 ==> Halved(q) == 4882812
  {
    assert Shr(INITIAL_SUBSIDY, 9) == 9765625;
    assert Shr(INITIAL_SUBSIDY, 10) == 4882812;
    ShrDown(q, 10);
  }

  lemma {:induction false} ShrDown(q: nat, r: nat)
    requires q <= r
    ensures Shr(INITIAL_SUBSIDY, r) <= Shr(INITIAL_SUBSIDY, q)
    decreases r
  {
    if q < r {
      ShrDown(q, r - 1);
    }
  }

  lemma {:induction false} TenthHalving(q: nat)
    requires q == 10
    ensures 2 * Halved(q) < Halved(q - 1)
  {
    HalvedPositive(q - 1);
    HalvedPositive(q);
  }

  /** `r` blocks worth `s` each. */
  function Times(r: nat, s: nat): nat
  {
    if r == 0 then 0 else Times(r - 1, s) + s
  }

  lemma {:induction false} TimesSum(r: nat, s: nat, t: nat)
    ensures Times(r, s + t) == Times(r, s) + Times(r, t)
  {
    if r > 0 {
      TimesSum(r - 1, s, t);
    }
  }

  lemma {:induction false} TimesMono(r: nat, d: nat, s: nat, t: nat)
    requires r <= d && s <= t
    ensures Times(r, s) <= Times(d, t)
  {
    if r > 0 {
      TimesMono(r - 1, d - 1, s, t);
    }
  }

  lemma {:induction false} TimesIsProduct(r: nat, s: nat)
    ensures Times(r, s) == r * s
  {
    if r > 0 {
      TimesIsProduct(r - 1, s);
      OneMore(r - 1, s);
    }
  }

  lemma {:induction false} OneMore(a: nat, b: nat)
    ensures (a + 1) * b == a * b + b
  {}

  lemma {:induction false} SubsidyIn(interval: nat, q: nat, r: nat)
    requires r < interval
    ensures var n := Times(q, interval) + r; Issued(interval, n + 1) == Issued(interval, n) + Halved(q)
  {
    TimesIsProduct(q, interval);
    DivUnique(Times(q, interval) + r, interval, q, r);
  }

  /** Whole periods and the blocks of the current one. */
  lemma {:induction false} IssuedByPeriod(interval: nat, q: nat, r: nat)
    requires r <= interval && interval > 0
    ensures Issued(interval, Times(q, interval) + r) == Times(interval, PerPeriod(q)) + Times(r, Halved(q))
    decreases q, r
  {
    if r > 0 {
      IssuedByPeriod(interval, q, r - 1);
      SubsidyIn(interval, q, r - 1);
    } else if q > 0 {
      IssuedByPeriod(interval, q - 1, interval);
      TimesSum(interval, PerPeriod(q - 1), Halved(q - 1));
    } else {
      TimesZero(interval);
    }
  }

  lemma {:induction false} TimesZero(r: nat)
    ensures Times(r, 0) == 0
  {
    if r > 0 {
      TimesZero(r - 1);
    }
  }

  /** However long the chain, less than the money supply is ever issued. */
  lemma {:induction false} SupplyBelowMaxMoney(interval: nat, n: nat)
    requires 0 < interval <= 210_000
    ensures Issued(interval, n) < MAX_MONEY
  {
    var q, r := n / interval, n % interval;
    Position(n, interval);
    IssuedByPeriod(interval, q, r);
    PerPeriodBound(q);
    if q < 10 {
      HalvedPositive(q);
    }
    Bounded(interval, r, PerPeriod(q), Halved(q));
  }

  lemma {:induction false} Position(n: nat, d: nat)
    requires d > 0
    ensures n == Times(n / d, d) + n % d && n % d < d
  {
    DivMod(n, d);
    TimesIsProduct(n / d, d);
  }

  lemma {:induction false} Bounded(d: nat, r: nat, g: nat, s: nat)
    requires r < d <= 210_000 && g + 2 * s <= 2 * INITIAL_SUBSIDY && (s == 0 ==> g < 2 * INITIAL_SUBSIDY)
    ensures Times(d, g) + Times(r, s) < MAX_MONEY
  {
    TimesMono(r, d, s, s);
    TimesSum(d, g, s);
    TimesMono(d, 210_000, g + s, 2 * INITIAL_SUBSIDY - 1);
    TimesIsProduct(210_000, 2 * INITIAL_SUBSIDY - 1);
  }

  /** The subsidies of the heights above genesis up to `n`. */
  function Minted(interval: nat, n: nat): nat
    requires interval > 0
  {
    if n == 0 then 0 else Minted(interval, n - 1) + BlockSubsidy(interval, n)
  }

  lemma {:induction false} MintedBelowMaxMoney(interval: nat, n: nat)
    requires 0 < interval <= 210_000
    ensures Minted(interval, n) < MAX_MONEY
  {
    MintedIsIssued(interval, n);
    SupplyBelowMaxMoney(interval, n + 1);
  }

  lemma {:induction false} MintedIsIssued(interval: nat, n: nat)
    requires interval > 0
    ensures Minted(interval, n) + BlockSubsidy(interval, 0) == Issued(interval, n + 1)
  {
    if n > 0 {
      MintedIsIssued(interval, n - 1);
    }
  }

  lemma {:induction false} SubsidyInRange(interval: nat, height: nat)
    requires interval > 0
    ensures BlockSubsidy(interval, height) <= MAX_MONEY
  {
    var q := height / interval;
    if q < 64 {
      ShrDown(0, q);
    }
  }
}
