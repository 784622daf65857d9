/** Loan pricing: `quote_terms`, a pure computation over checked `i128` arithmetic. */
module Pricing {
  import opened Types
  import opened Arithmetic

  /** Share of the treasury the loan takes, in basis points, rounded up and capped at 100%. */
  function LoanRatio(amount: nat, treasury: int): int {
    if treasury > 0 then
      match Checked(amount * BASIS_POINTS)
      case Some(v) => Min(CeilDiv(v, treasury), BASIS_POINTS)
      case None => BASIS_POINTS
    else
      BASIS_POINTS
  }

  function Rate(policy: Policy, amount: nat, treasury: int): int {
    var spread := policy.maxInterestRate - policy.minInterestRate;
    var ratio := LoanRatio(amount, treasury);
    LoanRatioBounds(amount, treasury);
    MulNonNegative(ratio, spread);
    var addedRate :=
      match Checked(ratio * spread)
      case Some(v) => CeilDiv(v, BASIS_POINTS)
      case None => spread;
    match Checked(policy.minInterestRate + addedRate)
    case Some(r) => Min(r, policy.maxInterestRate)
    case None => policy.maxInterestRate
  }

  function Interest(amount: nat, rate: int): int {
    if amount > 0 && rate > 0 then
      match Checked(amount * rate)
      case None => I128_MAX - amount
      case Some(v) =>
        match Checked(v + (BASIS_POINTS - 1))
        case None => I128_MAX - amount
        case Some(w) => w / BASIS_POINTS
    else
      0
  }

  function TotalRepayment(amount: nat, rate: int): int {
    match Checked(amount + Interest(amount, rate))
    case Some(t) => t
    case None => I128_MAX
  }

  /** `quote_terms` against an explicit treasury balance. */
  function QuoteTerms(policy: Policy, amount: nat, treasury: int): LoanTerms {
    var rate := Rate(policy, amount, treasury);
    RateBounds(policy, amount, treasury);
    LoanTerms(rate, TotalRepayment(amount, rate), policy.maxLoanDuration)
  }

  lemma LoanRatioBounds(amount: nat, treasury: int)
    ensures 0 <= LoanRatio(amount, treasury) <= BASIS_POINTS
  {
    if treasury > 0 && Checked(amount * BASIS_POINTS).Some? {
      var q := CeilDiv(amount * BASIS_POINTS, treasury);
      QuotientNonNegative(q, amount * BASIS_POINTS, treasury);
    }
  }

  lemma LoanRatioMonotone(a: nat, b: nat, treasury: int)
    requires a <= b
    ensures LoanRatio(a, treasury) <= LoanRatio(b, treasury)
  {
    if treasury > 0 {
      CeilDivMonotone(a * BASIS_POINTS, b * BASIS_POINTS, treasury);
      LoanRatioBounds(a, treasury);
    }
  }

  lemma LoanRatioAntitone(a: nat, t: int, u: int)
    requires t <= u
    ensures LoanRatio(a, u) <= LoanRatio(a, t)
  {
    LoanRatioBounds(a, u);
    if t > 0 {
      CeilDivAntitone(a * BASIS_POINTS, t, u);
    }
  }

  /** The rate is the linear curve `min + ceil(ratio * spread / 10000)`: the overflow fallbacks
      and the final clamp never fire under a valid policy. */
  lemma RateCurve(policy: Policy, amount: nat, treasury: int)
    ensures
      var spread := policy.maxInterestRate - policy.minInterestRate;
      var ratio := LoanRatio(amount, treasury);
      && ratio * spread >= 0
      && Rate(policy, amount, treasury) == policy.minInterestRate + CeilDiv(ratio * spread, BASIS_POINTS)
      && 0 <= CeilDiv(ratio * spread, BASIS_POINTS) <= spread
  {
    var spread := policy.maxInterestRate - policy.minInterestRate;
    var ratio := LoanRatio(amount, treasury);
    LoanRatioBounds(amount, treasury);
    MulMonotone(0, ratio, spread);
    MulMonotone(ratio, BASIS_POINTS, spread);
    MulMonotone(spread, BASIS_POINTS, BASIS_POINTS);
    CeilDivMonotone(ratio * spread, BASIS_POINTS * spread, BASIS_POINTS);
    CeilDivUnique(BASIS_POINTS * spread, BASIS_POINTS, spread);
    QuotientNonNegative(CeilDiv(ratio * spread, BASIS_POINTS), ratio * spread, BASIS_POINTS);
  }

  /** The quoted rate always lies within the policy's band. */
  lemma RateBounds(policy: Policy, amount: nat, treasury: int)
    ensures policy.minInterestRate <= Rate(policy, amount, treasury) <= policy.maxInterestRate
  {
    RateCurve(policy, amount, treasury);
  }

  lemma RateMonotone(policy: Policy, a: nat, t: int, b: nat, u: int)
    requires LoanRatio(a, t) <= LoanRatio(b, u)
    ensures Rate(policy, a, t) <= Rate(policy, b, u)
  {
    var spread := policy.maxInterestRate - policy.minInterestRate;
    RateCurve(policy, a, t);
    RateCurve(policy, b, u);
    MulMonotone(LoanRatio(a, t), LoanRatio(b, u), spread);
    CeilDivMonotone(LoanRatio(a, t) * spread, LoanRatio(b, u) * spread, BASIS_POINTS);
  }

  /** Away from overflow the debt is the exact ceiling; past it the debt is pinned at the top. */
  lemma TotalRepaymentValue(amount: nat, rate: nat)
    requires InI128(amount)
    ensures
      var exact := CeilDiv(amount * rate, BASIS_POINTS);
      && exact >= 0
      && TotalRepayment(amount, rate) ==
         if amount * rate + (BASIS_POINTS - 1) <= I128_MAX && amount + exact <= I128_MAX
         then amount + exact
         else I128_MAX
  {
    MulMonotone(0, amount, rate);
    CeilIdiom(amount * rate, BASIS_POINTS);
    QuotientNonNegative(CeilDiv(amount * rate, BASIS_POINTS), amount * rate, BASIS_POINTS);
    if amount == 0 || rate == 0 {
      assert amount * rate == 0;
      CeilDivUnique(0, BASIS_POINTS, 0);
    }
  }

  lemma TotalRepaymentMonotone(a: nat, r: nat, b: nat, q: nat)
    requires a <= b && r <= q && InI128(b)
    ensures TotalRepayment(a, r) <= TotalRepayment(b, q)
  {
    TotalRepaymentValue(a, r);
    TotalRepaymentValue(b, q);
    MulMonotone(a, b, r);
    MulMonotone(r, q, b);
    CeilDivMonotone(a * r, b * q, BASIS_POINTS);
  }

  /** Every quote, through every overflow fallback: the rate is within the policy band and the
      debt is at least the amount and representable. */
  lemma QuoteWithinBounds(policy: Policy, amount: nat, treasury: int)
    requires InI128(amount)
    ensures
      var terms := QuoteTerms(policy, amount, treasury);
      && policy.minInterestRate <= terms.interestRate <= policy.maxInterestRate
      && amount <= terms.totalRepayment <= I128_MAX
  {
    RateBounds(policy, amount, treasury);
    TotalRepaymentValue(amount, Rate(policy, amount, treasury));
  }

  /** A larger loan never owes less. */
  lemma QuoteMonotoneInAmount(policy: Policy, a: nat, b: nat, treasury: int)
    requires a <= b && InI128(b)
    ensures QuoteTerms(policy, a, treasury).totalRepayment <= QuoteTerms(policy, b, treasury).totalRepayment
  {
    RateBounds(policy, a, treasury);
    LoanRatioMonotone(a, b, treasury);
    RateMonotone(policy, a, treasury, b, treasury);
    TotalRepaymentMonotone(a, Rate(policy, a, treasury), b, Rate(policy, b, treasury));
  }

  /** A richer treasury never quotes a dearer loan. */
  lemma QuoteAntitoneInTreasury(policy: Policy, amount: nat, t: int, u: int)
    requires t <= u && InI128(amount)
    ensures QuoteTerms(policy, amount, u).totalRepayment <= QuoteTerms(policy, amount, t).totalRepayment
  {
    RateBounds(policy, amount, u);
    LoanRatioAntitone(amount, t, u);
    RateMonotone(policy, amount, u, amount, t);
    TotalRepaymentMonotone(amount, Rate(policy, amount, u), amount, Rate(policy, amount, t));
  }

  ghost function QuotedInterest(policy: Policy, amount: nat, treasury: int): int {
    QuoteTerms(policy, amount, treasury).totalRepayment - amount
  }

  /** Splitting a loan at a fixed treasury raises the total interest by at most one unit, as
      long as the unsplit debt does not sit at the overflow fallback. */
  lemma SplittingGainsAtMostOne(policy: Policy, a: nat, b: nat, treasury: int)
    requires InI128(a + b) && QuoteTerms(policy, a + b, treasury).totalRepayment < I128_MAX
    ensures QuotedInterest(policy, a, treasury) + QuotedInterest(policy, b, treasury)
            <= QuotedInterest(policy, a + b, treasury) + 1
  {
    var r := Rate(policy, a + b, treasury);
    RateBounds(policy, a + b, treasury);
    TotalRepaymentValue(a + b, r);
    PartInterest(policy, a, a + b, treasury);
    PartInterest(policy, b, a + b, treasury);
    SumOfProducts(a, b, r);
    CeilDivSplit(a * r, b * r, BASIS_POINTS);
  }

  lemma SumOfProducts(a: nat, b: nat, r: nat)
    ensures a * r >= 0 && b * r >= 0 && (a + b) * r == a * r + b * r
  {
    MulNonNegative(a, r);
    MulNonNegative(b, r);
  }

  /** A part pays at most the ceiling of its own share at the whole loan's rate. */
  lemma PartInterest(policy: Policy, part: nat, whole: nat, treasury: int)
    requires part <= whole && InI128(whole)
    requires QuoteTerms(policy, whole, treasury).totalRepayment < I128_MAX
    ensures
      var r := Rate(policy, whole, treasury);
      part * r >= 0 && QuotedInterest(policy, part, treasury) <= CeilDiv(part * r, BASIS_POINTS)
  {
    var rp, r := Rate(policy, part, treasury), Rate(policy, whole, treasury);
    RateBounds(policy, part, treasury);
    RateBounds(policy, whole, treasury);
    LoanRatioMonotone(part, whole, treasury);
    RateMonotone(policy, part, treasury, whole, treasury);
    TotalRepaymentMonotone(part, rp, whole, r);
    TotalRepaymentValue(part, rp);
    MulNonNegative(part, rp);
    MulMonotone(rp, r, part);
    CeilDivMonotone(part * rp, part * r, BASIS_POINTS);
  }
}
