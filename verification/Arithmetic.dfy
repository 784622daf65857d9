/** The integer arithmetic of `util.rs`: checked and saturating operators, ceiling division,
    the consensus bar, and the digit-by-digit square root behind the stake boost. */
module Arithmetic {
  import opened Types

  predicate InI128(x: int) { I128_MIN <= x <= I128_MAX }

  /** `i128::checked_*`: the result, or nothing when it leaves the type. */
  function Checked(x: int): Option<int> {
    if InI128(x) then Some(x) else None
  }

  /** Rust's `/` on a positive divisor: truncation toward zero. */
  function TruncDiv(x: int, d: int): int
    requires d > 0
  {
    if x >= 0 then x / d else -((-x) / d)
  }

  function Min(a: int, b: int): int { if a <= b then a else b }

  function Max(a: int, b: int): int { if a >= b then a else b }

  /** `u32::saturating_sub` (and `u64`): never below zero. */
  function SatSub(a: nat, b: nat): nat { if a >= b then a - b else 0 }

  /** `u64::saturating_add` and `u64::saturating_mul`. */
  function SatAdd64(a: nat, b: nat): nat { if a + b <= U64_MAX then a + b else U64_MAX }

  function SatMul64(a: nat, b: nat): nat { if a * b <= U64_MAX then a * b else U64_MAX }

  /** `i128::saturating_sub`. */
  function SatSub128(a: int, b: int): int {
    if a - b < I128_MIN then I128_MIN else if a - b > I128_MAX then I128_MAX else a - b
  }

  /** `ceil_div_nonnegative`; its assertion is the precondition. */
  function CeilDiv(value: int, divisor: int): (q: int)
    requires value >= 0 && divisor > 0
    ensures (q - 1) * divisor < value <= q * divisor
  {
    value / divisor + (if value % divisor != 0 then 1 else 0)
  }

  /** A ceiling quotient is characterised by its bounds. */
  lemma CeilDivUnique(value: int, divisor: int, q: int)
    requires value >= 0 && divisor > 0
    requires (q - 1) * divisor < value <= q * divisor
    ensures q == CeilDiv(value, divisor)
  {
    var c := CeilDiv(value, divisor);
    if q < c {
      MulMonotone(q, c - 1, divisor);
    } else if q > c {
      MulMonotone(c, q - 1, divisor);
    }
  }

  /** The treasury-favouring idiom `(v + d - 1) / d` is the same ceiling. */
  lemma CeilIdiom(value: int, divisor: int)
    requires value >= 0 && divisor > 0
    ensures (value + divisor - 1) / divisor == CeilDiv(value, divisor)
  {
    var q := (value + divisor - 1) / divisor;
    assert value + divisor - 1 == q * divisor + (value + divisor - 1) % divisor;
    assert (q - 1) * divisor == q * divisor - divisor;
    CeilDivUnique(value, divisor, q);
  }

  lemma MulMonotone(a: int, b: int, c: int)
    requires a <= b && c >= 0
    ensures a * c <= b * c
  {
  }

  lemma MulNonNegative(a: int, b: int)
    requires a >= 0 && b >= 0
    ensures a * b >= 0
  {
  }

  lemma CeilDivMonotone(a: int, b: int, divisor: int)
    requires 0 <= a <= b && divisor > 0
    ensures CeilDiv(a, divisor) <= CeilDiv(b, divisor)
  {
    if CeilDiv(a, divisor) > CeilDiv(b, divisor) {
      MulMonotone(CeilDiv(b, divisor), CeilDiv(a, divisor) - 1, divisor);
    }
  }

  lemma CeilDivAntitone(a: int, d: int, e: int)
    requires a >= 0 && 0 < d <= e
    ensures CeilDiv(a, e) <= CeilDiv(a, d)
  {
    var p, q := CeilDiv(a, d), CeilDiv(a, e);
    QuotientNonNegative(p, a, d);
    if q > p {
      MulMonotone(d, e, p);
      MulMonotone(p, q - 1, e);
    }
  }

  lemma QuotientNonNegative(p: int, a: int, d: int)
    requires d > 0 && 0 <= a <= p * d
    ensures p >= 0
  {
  }

  /** Rounding a sum up costs at most one unit less than rounding its parts up. */
  lemma CeilDivSplit(a: int, b: int, divisor: int)
    requires a >= 0 && b >= 0 && divisor > 0
    ensures CeilDiv(a, divisor) + CeilDiv(b, divisor) <= CeilDiv(a + b, divisor) + 1
  {
    var p, q, r := CeilDiv(a, divisor), CeilDiv(b, divisor), CeilDiv(a + b, divisor);
    if p + q >= r + 2 {
      assert ((p - 1) + (q - 1)) * divisor == (p - 1) * divisor + (q - 1) * divisor;
      MulMonotone(r, (p - 1) + (q - 1), divisor);
    }
  }

  /** `required_votes`: the consensus bar over the active-member base. */
  function RequiredVotes(activeMembers: nat, thresholdBps: nat): int {
    (activeMembers * thresholdBps + BASIS_POINTS - 1) / BASIS_POINTS
  }

  /** Reaching the rounded bar is exactly reaching the unrounded percentage. */
  lemma RequiredVotesExact(votes: int, activeMembers: nat, thresholdBps: nat)
    ensures votes >= RequiredVotes(activeMembers, thresholdBps)
            <==> votes * BASIS_POINTS >= activeMembers * thresholdBps
  {
    CeilIdiom(activeMembers * thresholdBps, BASIS_POINTS);
  }

  // ---- the square-root stake curve ----

  /** The documented price list of bonus votes: 100, 400, 900, 1600 and 2500 staked tokens buy
      one to five votes. */
  function StakeBoost(staked: int): int {
    if staked < 100 then 0
    else if staked < 400 then 1
    else if staked < 900 then 2
    else if staked < 1600 then 3
    else if staked < 2500 then 4
    else 5
  }

  /** The curve is the capped integer square root of the staked units: inside a band the boost
      is the band's index, at the end it is pinned at the cap. */
  lemma StakeBoostBands(staked: int, k: nat)
    requires staked >= 0 && k <= MAX_STAKE_BONUS
    ensures StakeBoost(staked) == k <==>
            && 100 * k * k <= staked
            && (k < MAX_STAKE_BONUS ==> staked < 100 * (k + 1) * (k + 1))
  {
    assert k == 0 || k == 1 || k == 2 || k == 3 || k == 4 || k == 5;
  }

  lemma StakeBoostMonotone(a: int, b: int)
    requires a <= b
    ensures 0 <= StakeBoost(a) <= StakeBoost(b) <= MAX_STAKE_BONUS
  {
  }

  predicate IsRoot(n: nat, r: nat) { r * r <= n < (r + 1) * (r + 1) }

  lemma RootUnique(n: nat, r: nat, t: nat)
    requires IsRoot(n, r) && IsRoot(n, t)
    ensures r == t
  {
    if r < t {
      SquareMonotone(r + 1, t);
    } else if t < r {
      SquareMonotone(t + 1, r);
    }
  }

  lemma SquareMonotone(a: nat, b: nat)
    requires a <= b
    ensures a * a <= b * b
  {
  }

  /** Capping the root of the whole units gives the price list. */
  lemma RootGivesBoost(staked: int, r: nat)
    requires staked > 0 && IsRoot(staked / 100, r)
    ensures Min(r, MAX_STAKE_BONUS) == StakeBoost(staked)
  {
    var units := staked / 100;
    if r >= 5 {
      SquareMonotone(5, r);
    } else {
      assert r == 0 || r == 1 || r == 2 || r == 3 || r == 4;
    }
  }

  newtype u128 = x: int | 0 <= x < 0x1_0000_0000_0000_0000_0000_0000_0000_0000

  ghost function Pow2(k: nat): (p: nat)
    ensures p >= 1
  {
    if k == 0 then 1 else 2 * Pow2(k - 1)
  }

  ghost function Pow4(k: nat): (p: nat)
    ensures p >= 1
  {
    if k == 0 then 1 else 4 * Pow4(k - 1)
  }

  lemma {:induction false} Pow4Square(k: nat)
    ensures Pow4(k) == Pow2(k) * Pow2(k)
  {
    if k > 0 {
      Pow4Square(k - 1);
    }
  }

  /** The loop invariant of `isqrt`: with `p` a power of two and the current bit `p * p`, the
      variables hold the scaled partial root and the remainder, and the true root lies below
      `partial + 2 * p`. */
  ghost predicate DigitInvariant(n: int, root: int, remainder: int, p: int, partial: int) {
    && p >= 1 && p * p <= n
    && partial >= 0 && (partial == 0 || partial >= 2 * p)
    && root == 2 * partial * p
    && remainder == n - partial * partial && remainder >= 0
    && n < (partial + 2 * p) * (partial + 2 * p)
  }

  /** No intermediate sum of the loop leaves `u128`. */
  lemma DigitNoOverflow(n: int, root: int, remainder: int, p: int, partial: int)
    requires DigitInvariant(n, root, remainder, p, partial)
    ensures 0 <= root && root + p * p <= 2 * n
    ensures remainder >= root + p * p <==> n >= (partial + p) * (partial + p)
  {
    Square(partial, p);
    if partial >= 2 * p {
      MulMonotone(2 * p, partial, partial);
      assert root <= partial * partial;
    }
  }

  lemma Square(a: int, b: int)
    ensures (a + b) * (a + b) == a * a + 2 * a * b + b * b
  {
  }

  lemma HalvedDigit(root: int, p: int, partial: int, q: int)
    requires p == 2 * q && q >= 1 && root == 2 * partial * p
    ensures q * q <= p * p
    ensures root / 2 == 2 * partial * q && root / 2 + p * p == 2 * (partial + p) * q
  {
    assert p * p == 4 * (q * q);
    assert root == 2 * (2 * partial * q);
    assert 2 * (partial + p) * q == 2 * partial * q + p * (2 * q);
  }

  /** One digit: halving `p` re-establishes the invariant for the chosen partial root. */
  lemma DigitStep(n: int, root: int, remainder: int, p: int, partial: int, q: int)
    requires p == 2 * q && q >= 1
    requires DigitInvariant(n, root, remainder, p, partial)
    ensures if remainder >= root + p * p
            then DigitInvariant(n, root / 2 + p * p, remainder - (root + p * p), q, partial + p)
            else DigitInvariant(n, root / 2, remainder, q, partial)
  {
    DigitNoOverflow(n, root, remainder, p, partial);
    HalvedDigit(root, p, partial, q);
    Square(partial, p);
  }

  /** The last digit (`p == 1`): the partial root becomes the root. */
  lemma DigitLast(n: int, root: int, remainder: int, partial: int)
    requires DigitInvariant(n, root, remainder, 1, partial)
    ensures root / 2 == partial
    ensures if remainder >= root + 1 then IsRoot(n, partial + 1) else IsRoot(n, partial)
  {
  }

  /** What the main loop keeps: digits remain (`bit == 4^k`), or the root is complete. */
  ghost predicate LoopInvariant(n: int, bit: int, root: int, remainder: int, k: nat, partial: int) {
    if bit == 0 then root == partial && partial >= 0 && n > 0 && IsRoot(n, partial)
    else bit == Pow4(k) && DigitInvariant(n, root, remainder, Pow2(k), partial)
  }

  lemma LoopStart(n: int, k: nat)
    requires Pow4(k) <= n < 4 * Pow4(k)
    ensures LoopInvariant(n, Pow4(k), 0, n, k, 0)
  {
    Pow4Square(k);
  }

  /** One round of the main loop keeps `LoopInvariant`, and its sum does not overflow. */
  lemma LoopStep(n: int, bit: int, root: int, remainder: int, k: nat, partial: int)
    requires bit != 0 && LoopInvariant(n, bit, root, remainder, k, partial)
    ensures 0 <= root && 0 < bit && root + bit <= 2 * n
    ensures 0 <= remainder <= n
    ensures k > 0 ==> bit / 4 == Pow4(k - 1)
    ensures k == 0 ==> bit / 4 == 0
    ensures var k' := if k == 0 then 0 else k - 1;
            if remainder >= root + bit
            then LoopInvariant(n, bit / 4, root / 2 + bit, remainder - (root + bit), k', partial + Pow2(k))
            else LoopInvariant(n, bit / 4, root / 2, remainder, k', partial)
  {
    Pow4Square(k);
    DigitNoOverflow(n, root, remainder, Pow2(k), partial);
    if k == 0 {
      DigitLast(n, root, remainder, partial);
    } else {
      DigitStep(n, root, remainder, Pow2(k), partial, Pow2(k - 1));
    }
  }

  /** `isqrt`: the largest `r` with `r * r <= n`, digit by digit in `u128`. */
  method Isqrt(n: int) returns (r: int)
    requires InI128(n)
    ensures n <= 0 ==> r == 0
    ensures n > 0 ==> r >= 0 && IsRoot(n, r)
  {
    if n <= 0 {
      return 0;
    }
    var remainder: u128 := n as u128;
    var bit: u128 := 0x4000_0000_0000_0000_0000_0000_0000_0000;
    ghost var k: nat := 63;
    Pow4Value();
    while bit > remainder
      invariant bit as int == Pow4(k)
      invariant n < 4 * (bit as int)
      decreases k
    {
      bit := bit / 4;
      k := k - 1;
    }
    var root: u128 := 0;
    ghost var partial: int := 0;
    LoopStart(n, k);
    while bit != 0
      invariant LoopInvariant(n, bit as int, root as int, remainder as int, k, partial)
      decreases if bit == 0 then 0 else k + 1
    {
      LoopStep(n, bit as int, root as int, remainder as int, k, partial);
      if remainder >= root + bit {
        remainder := remainder - (root + bit);
        root := root / 2 + bit;
        partial := partial + Pow2(k);
      } else {
        root := root / 2;
      }
      bit := bit / 4;
      k := if k == 0 then 0 else k - 1;
    }
    r := root as int;
  }

  lemma {:induction false} Pow4Add(a: nat, b: nat)
    ensures Pow4(a + b) == Pow4(a) * Pow4(b)
  {
    if a > 0 {
      Pow4Add(a - 1, b);
      assert Pow4(a + b) == 4 * Pow4(a - 1 + b);
    }
  }

  lemma Pow4Value()
    ensures Pow4(63) == 0x4000_0000_0000_0000_0000_0000_0000_0000
  {
    assert Pow4(7) == 0x4000;
    Pow4Add(7, 8);
    Pow4Add(15, 16);
    Pow4Add(31, 32);
  }

  /** `stake_boost`: the square root of the whole units, capped, is the price list. */
  method ComputeStakeBoost(staked: int) returns (b: int)
    requires InI128(staked)
    ensures b == StakeBoost(staked)
  {
    if staked <= 0 {
      return 0;
    }
    var r := Isqrt(staked / 100);
    if staked / 100 > 0 {
      RootGivesBoost(staked, r);
    }
    b := Min(r, MAX_STAKE_BONUS);
  }
}
