/** Deciding and paying out loans: which ballots count, which bar decides, when the money is there, and at what
    price it is lent. */
module LoanLaws {
  import opened Types
  import opened Arithmetic
  import opened Storage
  import opened TreasuryOps
  import opened Fields
  import opened Voting
  import Ballots
  import Credit
  import InnerFailures
  import Lending
  import Lifecycle
  import Pricing

  // ---- the price ----

  /** The part of the pool a loan takes, in basis points, rounded up; all of it where the product overflows. */
  function PartTaken(amount: int, pool: int): int {
    if pool > 0 && amount * 10_000 <= MAX then LeastOf((amount * 10_000 + pool - 1) / pool, 10_000) else 10_000
  }

  /** The price of a loan: the rate rises from the policy's lowest to its highest with the part of the pool taken,
      and the interest is that share of the amount; both are rounded up, and an overflowing debt is the largest. */
  ghost predicate Priced(policy: Policy, amount: int, pool: int, rate: int, total: int) {
    && rate == policy.minInterestRate
               + ShareUp(PartTaken(amount, pool), policy.maxInterestRate - policy.minInterestRate)
    && total == if amount * rate + 9_999 <= MAX && amount + ShareUp(amount, rate) <= MAX
                then amount + ShareUp(amount, rate) else MAX
  }

  lemma QuoteIsPriced(policy: Policy, amount: nat, pool: int)
    requires InI128(amount)
    ensures var terms := Pricing.QuoteTerms(policy, amount, pool);
            Priced(policy, amount, pool, terms.interestRate, terms.totalRepayment)
            && terms.duration == policy.maxLoanDuration
  {
    PartIsRatio(amount, pool);
    Pricing.RateCurve(policy, amount, pool);
    CeilIdiom(Pricing.LoanRatio(amount, pool) * (policy.maxInterestRate - policy.minInterestRate), BASIS_POINTS);
    Pricing.RateBounds(policy, amount, pool);
    var rate := Pricing.Rate(policy, amount, pool);
    Pricing.TotalRepaymentValue(amount, rate);
    MulNonNegative(amount, rate);
    CeilIdiom(amount * rate, BASIS_POINTS);
  }

  lemma PartIsRatio(amount: nat, pool: int)
    ensures Pricing.LoanRatio(amount, pool) == PartTaken(amount, pool)
  {
    if pool > 0 {
      CeilIdiom(amount * 10_000, pool);
    }
  }

  // ---- the money ----

  /** The pool holds the amount, and the amount keeps to the policy's part of it; an overflowing product allows
      nothing. */
  predicate Fundable(s: State, token: Address, amount: int) {
    var pool, part := Pool(s, token), s.config.policy.maxLoanToTreasuryRatio;
    amount <= pool && amount * 10_000 <= pool * part <= MAX
  }

  /** The record of a borrower who owes one loan more. */
  function Owing(m: Member, now: nat): Member {
    Member(m.address, m.status, m.joinTime, m.contribution, m.shareBalance, true, now, m.totalLoans + 1, m.repaidLoans,
           m.activeLoans + 1)
  }

  /** The loan of a proposal, as it is when it is paid from state `s`. */
  ghost predicate LoanOf(s: State, id: Id, borrower: Address, amount: int, x: Loan) {
    && x == Loan(id, borrower, amount, x.interestRate, x.totalRepayment, s.now,
                 s.now + s.config.policy.maxLoanDuration, Active, 0)
    && Priced(s.config.policy, amount, Pool(s, LoanToken(s, id)), x.interestRate, x.totalRepayment)
  }

  /** A loan is opened: its record, the borrower's, and one payment out of the pool. */
  ghost predicate Opened(s: State, t: State, id: Id, borrower: Address, amount: int) {
    && id in t.loans.loans && LoanOf(s, id, borrower, amount, t.loans.loans[id])
    && t.loans.loans == s.loans.loans[id := t.loans.loans[id]]
    && borrower in s.roster.members
    && t.roster == s.roster.(members := s.roster.members[borrower := Owing(s.roster.members[borrower], s.now)])
    && Moved(s.balances, t.balances, LoanToken(s, id), s.config.self, borrower, amount)
  }

  lemma CapIsShare(amount: int, pool: int, part: nat)
    requires 0 < amount <= pool && part > 0
    ensures (match Checked(pool * part) case Some(v) => amount <= TruncDiv(v, BASIS_POINTS) case None => false)
            <==> amount * 10_000 <= pool * part <= MAX
  {
    MulNonNegative(pool, part);
  }

  lemma DisbursalPaidIff(s: State, p: LoanProposal)
    requires s.staking.total >= 0 && p.amount > 0 && p.borrower in s.roster.members
    ensures var r := Lending.ApproveAndDisburse(s, p);
            && !r.HostTrap? && (r.Refused? ==> r.state == s)
            && (r.Paid? <==> Fundable(s, LoanToken(s, p.id), p.amount))
  {
    var token := LoanToken(s, p.id);
    if p.amount <= Pool(s, token) {
      CapIsShare(p.amount, Pool(s, token), s.config.policy.maxLoanToTreasuryRatio);
    }
  }

  lemma DisbursalEffect(s: State, p: LoanProposal)
    requires Lending.ApproveAndDisburse(s, p).Paid? && p.amount > 0
    ensures var t := Lending.ApproveAndDisburse(s, p).state;
            && Opened(s, t, p.id, p.borrower, p.amount)
            && t == s.(loans := s.loans.(loans := t.loans.loans), roster := t.roster, balances := t.balances,
                       history := t.history)
  {
    var pool := Pool(s, LoanToken(s, p.id));
    Lifecycle.DisbursalShape(s, p);
    QuoteIsPriced(s.config.policy, p.amount, pool);
    TransferMoves(s.balances, LoanToken(s, p.id), s.config.self, p.borrower, p.amount);
  }

  // ---- a parked loan ----

  /** An approved, unpaid loan can be paid exactly when its money is there. */
  lemma DisbursementAcceptedIff(s: State, id: Id)
    requires Lifecycle.LifeInv(s) && s.staking.total >= 0
    ensures Lending.DisburseStep(s, id).Success?
            <==> && !s.config.paused && id in s.loans.proposals
                 && s.loans.proposals[id].status == ApprovedPendingDisbursement
                 && Fundable(s, LoanToken(s, id), s.loans.proposals[id].amount)
  {
    if id in s.loans.proposals {
      assert Lifecycle.ProposalOk(s.loans, s.roster.members.Keys, s.history.disbursals, id);
      DisbursalPaidIff(s, s.loans.proposals[id]);
    }
  }

  lemma DisbursementEffect(s: State, id: Id)
    requires Lifecycle.LifeInv(s) && Lending.DisburseStep(s, id).Success?
    ensures id in s.loans.proposals
    ensures var p, t := s.loans.proposals[id], Lending.DisburseStep(s, id).value;
            && id !in s.loans.loans && Opened(s, t, id, p.borrower, p.amount)
            && t.loans == s.loans.(loans := t.loans.loans, proposals := s.loans.proposals[id := p.(status := Approved)])
            && t == s.(loans := t.loans, roster := t.roster, balances := t.balances, quota := t.quota,
                       history := t.history)
  {
    assert Lifecycle.ProposalOk(s.loans, s.roster.members.Keys, s.history.disbursals, id);
    DisbursalEffect(s, s.loans.proposals[id]);
  }

  // ---- a ballot ----

  /** Voting runs from the end of editing to just before its deadline. */
  predicate InVoting(p: LoanProposal, now: nat) {
    && (p.phase == VotingPhase || (p.phase == EditingPhase && p.editingPeriodEnd <= now))
    && now < p.editingPeriodEnd + p.votingPeriod
  }

  /** A ballot on a loan is accepted exactly from an active member other than the borrower, once, while voting
      runs. */
  lemma LoanBallotAcceptedIff(s: State, voter: Address, id: Id, support: bool)
    requires Lifecycle.LifeInv(s) && s.staking.total >= 0
    ensures Lending.LoanVoteStep(s, voter, id, support).Success?
            <==> && !s.config.paused && Enlisted(s, voter) && id in s.loans.proposals
                 && InVoting(s.loans.proposals[id], s.now)
                 && voter != s.loans.proposals[id].borrower && (id, voter) !in s.loans.voted
  {
    InnerFailures.CastNeverTraps(s, voter, id, support);
    if id in s.loans.proposals {
      assert Lifecycle.ProposalOk(s.loans, s.roster.members.Keys, s.history.disbursals, id);
    }
  }

  /** The ballot is added to its own side of the tally, at the voter's weight. */
  predicate Tallied(p: LoanProposal, q: LoanProposal, support: bool, weight: int) {
    q == p.(forVotes := p.forVotes + (if support then weight else 0),
            againstVotes := p.againstVotes + (if support then 0 else weight),
            votesCast := p.votesCast + 1, phase := q.phase, status := q.status)
  }

  /** The share of the active members that decides a loan: the policy's quorum where it sets one. */
  function Bar(s: State): nat {
    if s.config.policy.quorumBps > 0 then s.config.policy.quorumBps else s.config.threshold
  }

  /** What a tally leads to. It is approved when the votes in favour reach the bar, and paid at once when its money
      is there; rejected when six votes from every member not yet counted would not lift it to the bar. */
  ghost predicate Decided(s: State, q: LoanProposal) {
    var quorum := s.roster.active * Bar(s);
    var left := if s.roster.active > q.votesCast then s.roster.active - q.votesCast else 0;
    if q.forVotes * 10_000 >= quorum then
      && q.phase == ExecutedPhase
      && q.status == if Fundable(s, LoanToken(s, q.id), q.amount) then Approved else ApprovedPendingDisbursement
    else if (q.forVotes + 6 * left) * 10_000 < quorum then q.phase == ExpiredPhase && q.status == Rejected
    else q.phase == VotingPhase && q.status == Pending
  }

  /** An accepted ballot: the voter is recorded, the tally counted and decided, and a loan paid exactly when it is
      approved with its money there. */
  ghost predicate BallotOn(s: State, t: State, voter: Address, id: Id, support: bool)
    requires id in s.loans.proposals
  {
    var p := s.loans.proposals[id];
    && id in t.loans.proposals
    && var q := t.loans.proposals[id];
    && Tallied(p, q, support, VotingWeight(s, voter)) && Decided(s, q)
    && t.loans == s.loans.(loans := t.loans.loans, proposals := s.loans.proposals[id := q],
                           voted := s.loans.voted + {(id, voter)})
    && t == s.(loans := t.loans, roster := t.roster, balances := t.balances, quota := t.quota, history := t.history)
    && if q.status == Approved then id !in s.loans.loans && Opened(s, t, id, p.borrower, p.amount)
       else t.loans.loans == s.loans.loans && t.roster == s.roster && t.balances == s.balances
  }

  lemma LoanBallotEffect(s: State, voter: Address, id: Id, support: bool)
    requires Lifecycle.LifeInv(s) && s.staking.total >= 0 && Lending.CastLoanVote(s, voter, id, support).Success?
    ensures id in s.loans.proposals
    ensures BallotOn(s, Lending.CastLoanVote(s, voter, id, support).value, voter, id, support)
  {
    Credit.Votable(s, voter, id, support);
    Credit.NotYetLent(s, id);
    var p, weight := s.loans.proposals[id], VotingWeight(s, voter);
    var counted := Lending.CountedLoan(Lending.RefreshPhase(p, s.now), support, weight);
    Ballots.VoteIsSettle(s, voter, id, support);
    CountedVoting(s, voter, id, support);
    var s1 := Lending.LoanBallotCast(s, id, voter, support, weight);
    TallyDecided(s1, counted);
    CountedOn(s, s1, Lending.SettleLoan(s1, counted).value, voter, counted, support);
  }

  lemma CountedVoting(s: State, voter: Address, id: Id, support: bool)
    requires Lending.CastLoanVote(s, voter, id, support).Success?
    ensures var p := s.loans.proposals[id];
            var counted := Lending.CountedLoan(Lending.RefreshPhase(p, s.now), support, VotingWeight(s, voter));
            Tallied(p, counted, support, VotingWeight(s, voter)) && counted.phase == VotingPhase
  {
  }

  /** The decision, from a counted tally. */
  ghost predicate SettledAs(s: State, t: State, p: LoanProposal) {
    && p.id in t.loans.proposals
    && var q := t.loans.proposals[p.id];
    && q == p.(phase := q.phase, status := q.status) && Decided(s, q)
    && t.loans == s.loans.(loans := t.loans.loans, proposals := s.loans.proposals[p.id := q])
    && t == s.(loans := t.loans, roster := t.roster, balances := t.balances, quota := t.quota, history := t.history)
    && if q.status == Approved then Opened(s, t, p.id, p.borrower, p.amount)
       else t.loans.loans == s.loans.loans && t.roster == s.roster && t.balances == s.balances
  }

  lemma TallyDecided(s: State, p: LoanProposal)
    requires s.staking.total >= 0 && p.amount > 0 && p.borrower in s.roster.members
    requires p.status == Pending && p.phase == VotingPhase && Lending.SettleLoan(s, p).Success?
    ensures SettledAs(s, Lending.SettleLoan(s, p).value, p)
  {
    var bar := Lending.ThresholdInForce(s.config);
    RequiredVotesExact(p.forVotes, s.roster.active, bar);
    RequiredVotesExact(p.forVotes + MaxRemaining(s.roster.active, p.votesCast), s.roster.active, bar);
    if p.forVotes >= RequiredVotes(s.roster.active, bar) {
      TallyApproved(s, p);
    } else {
      TallyShort(s, p);
    }
  }

  lemma TallyApproved(s: State, p: LoanProposal)
    requires s.staking.total >= 0 && p.amount > 0 && p.borrower in s.roster.members
    requires p.status == Pending && Lending.SettleLoan(s, p).Success?
    requires p.forVotes >= RequiredVotes(s.roster.active, Lending.ThresholdInForce(s.config))
    requires p.forVotes * 10_000 >= s.roster.active * Bar(s)
    ensures SettledAs(s, Lending.SettleLoan(s, p).value, p)
  {
    var approved := Lifecycle.ApprovedFrom(p);
    var s1 := WithLoanProposal(s, approved);
    DisbursalPaidIff(s1, approved);
    var inner := Lending.ApproveAndDisburse(s1, approved);
    if inner.Paid? {
      DisbursalEffect(s1, approved);
      PaidAsSettled(s, s1, inner.state, p, Lending.SettleLoan(s, p).value);
    } else {
      Lifecycle.OverwrittenTwice(s.loans.proposals, p.id, approved, approved);
    }
  }

  lemma PaidAsSettled(s: State, s1: State, s2: State, p: LoanProposal, t: State)
    requires s1 == WithLoanProposal(s, Lifecycle.ApprovedFrom(p))
    requires Opened(s1, s2, p.id, p.borrower, p.amount)
    requires s2 == s1.(loans := s1.loans.(loans := s2.loans.loans), roster := s2.roster, balances := s2.balances,
                       history := s2.history)
    requires t == WithLoanProposal(s2, Lifecycle.ApprovedFrom(p).(status := Approved))
    requires p.forVotes * 10_000 >= s.roster.active * Bar(s) && Fundable(s, LoanToken(s, p.id), p.amount)
    ensures SettledAs(s, t, p)
  {
    Lifecycle.OverwrittenTwice(s.loans.proposals, p.id, Lifecycle.ApprovedFrom(p),
                               Lifecycle.ApprovedFrom(p).(status := Approved));
  }

  lemma TallyShort(s: State, p: LoanProposal)
    requires p.status == Pending && p.phase == VotingPhase && Lending.SettleLoan(s, p).Success?
    requires p.forVotes < RequiredVotes(s.roster.active, Lending.ThresholdInForce(s.config))
    requires p.forVotes * 10_000 < s.roster.active * Bar(s)
    requires p.forVotes + MaxRemaining(s.roster.active, p.votesCast)
             < RequiredVotes(s.roster.active, Lending.ThresholdInForce(s.config))
             <==> (p.forVotes + MaxRemaining(s.roster.active, p.votesCast)) * 10_000 < s.roster.active * Bar(s)
    ensures SettledAs(s, Lending.SettleLoan(s, p).value, p)
  {
  }

  lemma CountedOn(s: State, s1: State, t: State, voter: Address, counted: LoanProposal, support: bool)
    requires counted.id in s.loans.proposals && counted.id !in s.loans.loans
    requires var p := s.loans.proposals[counted.id];
             Tallied(p, counted, support, VotingWeight(s, voter))
    requires s1.loans == s.loans.(voted := s.loans.voted + {(counted.id, voter)})
    requires s1 == s.(loans := s1.loans, history := s1.history)
    requires SettledAs(s1, t, counted)
    ensures BallotOn(s, t, voter, counted.id, support)
  {
  }
}
