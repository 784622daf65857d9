/** Credit records: per-member counters against the loan table, and interest-first repayment. */
module Credit {
  import opened Types
  import opened Arithmetic
  import opened History
  import opened Storage
  import opened TreasuryOps
  import opened System
  import opened Frames
  import opened Lifecycle
  import opened Pricing
  import opened Voting
  import Membership
  import StakingOps
  import Lending

  // ---- counters ----

  ghost function LoansOf(loans: map<Id, Loan>, who: Address, status: LoanStatus): set<Id> {
    set id | id in loans && loans[id].borrower == who && loans[id].status == status
  }

  ghost predicate CountersOk(m: Member, loans: map<Id, Loan>, who: Address) {
    && m.activeLoans == |LoansOf(loans, who, Active)|
    && m.repaidLoans == |LoansOf(loans, who, Repaid)|
    && m.totalLoans == |LoansOf(loans, who, Active)| + |LoansOf(loans, who, Repaid)| + |LoansOf(loans, who, Defaulted)|
    && (m.hasActiveLoan ==> m.activeLoans >= 1)
  }

  ghost predicate CounterInv(ms: map<Address, Member>, loans: map<Id, Loan>) {
    && (forall who :: who in ms ==> CountersOk(ms[who], loans, who))
    && (forall id :: id in loans ==> loans[id].borrower in ms)
  }

  /** A new loan joins its borrower's active loans and nobody else's. */
  lemma LoanAdded(loans: map<Id, Loan>, id: Id, loan: Loan, who: Address)
    requires id !in loans && loan.status == Active
    ensures var n := loans[id := loan];
            && LoansOf(n, who, Active) == (if who == loan.borrower then LoansOf(loans, who, Active) + {id}
                                           else LoansOf(loans, who, Active))
            && LoansOf(n, who, Repaid) == LoansOf(loans, who, Repaid)
            && LoansOf(n, who, Defaulted) == LoansOf(loans, who, Defaulted)
            && id !in LoansOf(loans, who, Active)
  {
  }

  lemma CountersLend(ms: map<Address, Member>, loans: map<Id, Loan>, id: Id, loan: Loan, now: nat)
    requires CounterInv(ms, loans) && id !in loans && loan.status == Active && loan.borrower in ms
    ensures CounterInv(ms[loan.borrower := Lending.Indebted(ms[loan.borrower], now)], loans[id := loan])
  {
    var ns := ms[loan.borrower := Lending.Indebted(ms[loan.borrower], now)];
    forall who | who in ns
      ensures CountersOk(ns[who], loans[id := loan], who)
    {
      LoanAdded(loans, id, loan, who);
      assert CountersOk(ms[who], loans, who);
    }
  }

  /** A payment that leaves the loan active changes no counter. */
  lemma CountersPay(ms: map<Address, Member>, loans: map<Id, Loan>, id: Id, loan: Loan)
    requires CounterInv(ms, loans) && id in loans && loan.borrower == loans[id].borrower
    requires loan.status == loans[id].status
    ensures CounterInv(ms, loans[id := loan])
  {
    forall who | who in ms
      ensures CountersOk(ms[who], loans[id := loan], who)
    {
      CountersUnmoved(ms[who], loans, id, loan, who);
    }
  }

  lemma CountersUnmoved(m: Member, loans: map<Id, Loan>, id: Id, loan: Loan, who: Address)
    requires CountersOk(m, loans, who) && id in loans && loan.borrower == loans[id].borrower
    requires loan.status == loans[id].status || who != loan.borrower
    ensures CountersOk(m, loans[id := loan], who)
  {
    SetUnmoved(loans, id, loan, who, Active);
    SetUnmoved(loans, id, loan, who, Repaid);
    SetUnmoved(loans, id, loan, who, Defaulted);
  }

  lemma SetUnmoved(loans: map<Id, Loan>, id: Id, loan: Loan, who: Address, status: LoanStatus)
    requires id in loans && loan.borrower == loans[id].borrower
    requires loan.status == loans[id].status || who != loan.borrower
             || (status != loan.status && status != loans[id].status)
    ensures LoansOf(loans[id := loan], who, status) == LoansOf(loans, who, status)
  {
  }

  /** Closing an active loan moves it out of the active set; the subtraction does not saturate. */
  lemma CountersClose(ms: map<Address, Member>, loans: map<Id, Loan>, id: Id, loan: Loan, m: Member)
    requires CounterInv(ms, loans) && id in loans && loan.borrower == loans[id].borrower
    requires loans[id].status == Active && loan.status != Active
    requires var before := ms[loan.borrower];
             && m.hasActiveLoan == false && m.activeLoans == SatSub(before.activeLoans, 1)
             && m.totalLoans == before.totalLoans
             && m.repaidLoans == before.repaidLoans + if loan.status == Repaid then 1 else 0
    ensures ms[loan.borrower].activeLoans >= 1
    ensures CounterInv(ms[loan.borrower := m], loans[id := loan])
  {
    var b := loan.borrower;
    var ns := ms[b := m];
    assert CountersOk(ms[b], loans, b);
    assert id in LoansOf(loans, b, Active);
    forall who | who in ns
      ensures CountersOk(ns[who], loans[id := loan], who)
    {
      if who == b {
        ClosedSets(loans, id, loan);
      } else {
        CountersUnmoved(ms[who], loans, id, loan, who);
      }
    }
  }

  lemma ClosedSets(loans: map<Id, Loan>, id: Id, loan: Loan)
    requires id in loans && loan.borrower == loans[id].borrower
    requires loans[id].status == Active && loan.status != Active
    ensures var n, b := loans[id := loan], loan.borrower;
            && |LoansOf(n, b, Active)| == |LoansOf(loans, b, Active)| - 1
            && |LoansOf(n, b, Repaid)| == |LoansOf(loans, b, Repaid)| + (if loan.status == Repaid then 1 else 0)
            && |LoansOf(n, b, Defaulted)|
               == |LoansOf(loans, b, Defaulted)| + (if loan.status == Defaulted then 1 else 0)
  {
    SetLeft(loans, id, loan);
    if loan.status == Repaid {
      SetEntered(loans, id, loan);
      SetUnmoved(loans, id, loan, loan.borrower, Defaulted);
    } else {
      SetEntered(loans, id, loan);
      SetUnmoved(loans, id, loan, loan.borrower, Repaid);
    }
  }

  lemma SetLeft(loans: map<Id, Loan>, id: Id, loan: Loan)
    requires id in loans && loan.borrower == loans[id].borrower && loan.status != loans[id].status
    ensures |LoansOf(loans[id := loan], loan.borrower, loans[id].status)|
            == |LoansOf(loans, loan.borrower, loans[id].status)| - 1
  {
    var before := LoansOf(loans, loan.borrower, loans[id].status);
    assert LoansOf(loans[id := loan], loan.borrower, loans[id].status) == before - {id};
    assert id in before;
  }

  lemma SetEntered(loans: map<Id, Loan>, id: Id, loan: Loan)
    requires id in loans && loan.borrower == loans[id].borrower && loan.status != loans[id].status
    ensures |LoansOf(loans[id := loan], loan.borrower, loan.status)| == |LoansOf(loans, loan.borrower, loan.status)| + 1
  {
    var before := LoansOf(loans, loan.borrower, loan.status);
    assert LoansOf(loans[id := loan], loan.borrower, loan.status) == before + {id};
    assert id !in before;
  }

  /** Rewriting a record without touching its counters (a departure). */
  lemma CountersKept(ms: map<Address, Member>, loans: map<Id, Loan>, who: Address, m: Member)
    requires CounterInv(ms, loans) && who in ms
    requires m.activeLoans == ms[who].activeLoans && m.repaidLoans == ms[who].repaidLoans
    requires m.totalLoans == ms[who].totalLoans && (m.hasActiveLoan ==> ms[who].hasActiveLoan)
    ensures CounterInv(ms[who := m], loans)
  {
    var ns := ms[who := m];
    forall a | a in ns
      ensures CountersOk(ns[a], loans, a)
    {
      assert CountersOk(ms[a], loans, a);
    }
  }

  /** A first-time member starts from an empty record; a returning one keeps the old counters. */
  lemma CountersJoin(r: Roster, loans: map<Id, Loan>, who: Address, now: nat, fee: nat)
    requires CounterInv(r.members, loans)
    ensures CounterInv(Membership.Enrolled(r, who, now, fee).members, loans)
  {
    var m := Membership.NewRecord(r, who, now, fee);
    if who in r.members {
      CountersKept(r.members, loans, who, m);
    } else {
      assert LoansOf(loans, who, Active) == {} && LoansOf(loans, who, Repaid) == {}
             && LoansOf(loans, who, Defaulted) == {};
      var ns := r.members[who := m];
      forall a | a in ns
        ensures CountersOk(ns[a], loans, a)
      {
        if a != who { assert CountersOk(r.members[a], loans, a); }
      }
    }
  }

  // ---- interest-first repayment ----

  /** Where a loan stands: its interest is what was quoted at disbursement, whatever has been paid
      and whatever late penalties were added, and the yield handed out is the interest covered. */
  ghost predicate LoanOk(loan: Loan, trace: LoanTrace, base: bool) {
    && loan.totalRepayment - loan.principal == trace.quoted >= 0
    && 0 <= loan.amountRepaid <= loan.totalRepayment
    && (loan.status == Repaid <==> loan.amountRepaid == loan.totalRepayment)
    && trace.handed == if base then Min(loan.amountRepaid, trace.quoted) else 0
  }

  ghost predicate RepaymentInv(b: LoanBook, token: Address, traces: map<Id, LoanTrace>) {
    && traces.Keys == b.loans.Keys
    && forall id :: id in b.loans ==>
         b.loans[id].id == id && LoanOk(b.loans[id], traces[id], AssetOf(b.assets, id, token) == token)
  }

  /** Away from overflow both penalties are ceilings, so a borrower never pays less than the policy's
      share; the slash never exceeds the contribution. */
  lemma PenaltiesRoundUp(base: int, policy: Policy)
    requires base > 0 && base * policy.defaultPenaltyBps + (BASIS_POINTS - 1) <= I128_MAX
    ensures base * policy.defaultPenaltyBps >= 0
    ensures Lending.LatePenalty(base, policy.defaultPenaltyBps)
              == CeilDiv(base * policy.defaultPenaltyBps, BASIS_POINTS)
    ensures Lending.DefaultPenalty(base, policy.defaultPenaltyBps)
              == CeilDiv(base * policy.defaultPenaltyBps, BASIS_POINTS) <= base
  {
    var bps := policy.defaultPenaltyBps;
    MulNonNegative(base, bps);
    MulMonotone(bps, BASIS_POINTS, base);
    CeilIdiom(base * bps, BASIS_POINTS);
    CeilDivMonotone(base * bps, base * BASIS_POINTS, BASIS_POINTS);
    CeilDivUnique(base * BASIS_POINTS, BASIS_POINTS, base);
    if bps == 0 {
      assert base * bps == 0;
      CeilDivUnique(0, BASIS_POINTS, 0);
    }
  }

  /** A late penalty moves debt and principal together, so the quoted interest stands. */
  lemma OwedOk(loan: Loan, trace: LoanTrace, base: bool, policy: Policy, now: nat)
    requires LoanOk(loan, trace, base) && loan.status == Active
    ensures var owed := Lending.Owed(loan, policy, now);
            && LoanOk(owed, trace, base)
            && owed.status == Active && owed.id == loan.id && owed.borrower == loan.borrower
            && owed.totalRepayment >= loan.totalRepayment
  {
    PenaltyNonNegative(loan.totalRepayment - loan.amountRepaid, policy.defaultPenaltyBps);
  }

  /** One payment, partial or full. */
  lemma PaymentKeeps(owed: Loan, trace: LoanTrace, base: bool, amount: int)
    requires LoanOk(owed, trace, base) && owed.status == Active
    requires 0 < amount <= owed.totalRepayment - owed.amountRepaid
    ensures
      var handed := trace.handed + if base then Lending.InterestComponent(owed, amount) else 0;
      LoanOk(Lending.Credited(owed, amount), trace.(handed := handed), base)
  {
  }

  lemma FreshLoanOk(p: LoanProposal, policy: Policy, treasury: int, now: nat)
    requires p.amount > 0 && InI128(p.amount)
    ensures var loan := Lending.MakeLoan(p, policy, treasury, now);
            var trace := LoanTrace(loan.totalRepayment - loan.principal, 0);
            LoanOk(loan, trace, true) && LoanOk(loan, trace, false)
  {
    QuoteWithinBounds(policy, p.amount, treasury);
  }

  lemma RepaymentLend(b: LoanBook, token: Address, traces: map<Id, LoanTrace>, loan: Loan,
                      proposals: map<Id, LoanProposal>)
    requires RepaymentInv(b, token, traces)
    requires LoanOk(loan, LoanTrace(loan.totalRepayment - loan.principal, 0),
                    AssetOf(b.assets, loan.id, token) == token)
    ensures RepaymentInv(b.(proposals := proposals, loans := b.loans[loan.id := loan]), token,
                         traces[loan.id := LoanTrace(loan.totalRepayment - loan.principal, 0)])
  {
  }

  lemma RepaymentUpdate(b: LoanBook, token: Address, traces: map<Id, LoanTrace>, id: Id, loan: Loan, trace: LoanTrace)
    requires RepaymentInv(b, token, traces) && id in b.loans && loan.id == id
    requires LoanOk(loan, trace, AssetOf(b.assets, id, token) == token)
    ensures RepaymentInv(b.(loans := b.loans[id := loan]), token, traces[id := trace])
  {
  }

  // ---- every step ----

  ghost predicate CreditInv(s: State) {
    && CounterInv(s.roster.members, s.loans.loans)
    && RepaymentInv(s.loans, s.config.token, s.history.loanTraces)
  }

  lemma InitialCredit(s: State)
    requires Initial(s)
    ensures CreditInv(s)
  {
  }

  lemma LentCredit(s: State, p: LoanProposal, t: State)
    requires CreditInv(s) && p.id !in s.loans.loans && p.amount > 0
    requires SettledByLending(s, p, t) && t.config.token == s.config.token
    ensures CreditInv(t)
  {
    var loan := LoanFor(s, p);
    FreshLoanOk(p, s.config.policy, TreasuryIn(s, LoanAsset(s, p.id)), s.now);
    LentParts(s.roster.members, s.loans, s.config.token, s.history, loan, s.now, t.loans.proposals);
    assert t.loans == s.loans.(proposals := t.loans.proposals, loans := s.loans.loans[p.id := loan]);
  }

  lemma LentParts(ms: map<Address, Member>, b: LoanBook, token: Address, h: History, loan: Loan, now: nat,
                  proposals: map<Id, LoanProposal>)
    requires CounterInv(ms, b.loans) && RepaymentInv(b, token, h.loanTraces)
    requires loan.id !in b.loans && loan.borrower in ms && loan.status == Active
    requires var trace := LoanTrace(loan.totalRepayment - loan.principal, 0);
             LoanOk(loan, trace, true) && LoanOk(loan, trace, false)
    ensures CounterInv(ms[loan.borrower := Lending.Indebted(ms[loan.borrower], now)], b.loans[loan.id := loan])
    ensures RepaymentInv(b.(proposals := proposals, loans := b.loans[loan.id := loan]), token,
                         Record(h, LoanApproved(loan.id, loan.borrower, loan.principal,
                                                loan.totalRepayment)).loanTraces)
  {
    CountersLend(ms, b.loans, loan.id, loan, now);
    RepaymentLend(b, token, h.loanTraces, loan, proposals);
  }

  lemma SettleLoanCredit(s: State, p: LoanProposal)
    requires CreditInv(s) && p.id !in s.loans.loans
    requires p.status == Pending && p.amount > 0 && p.borrower in s.roster.members
    requires Lending.SettleLoan(s, p).Success?
    ensures CreditInv(Lending.SettleLoan(s, p).value)
  {
    var t := Lending.SettleLoan(s, p).value;
    SettleLoanShape(s, p);
    SettleLoanFrame(s, p);
    if SettledByLending(s, p, t) {
      LentCredit(s, p, t);
    }
  }

  /** What the lifecycle guarantees about a proposal that can still be voted on or disbursed. */
  lemma NotYetLent(s: State, id: Id)
    requires LifeInv(s) && id in s.loans.proposals && s.loans.proposals[id].status != Approved
    ensures var p := s.loans.proposals[id];
            && p.id == id && p.amount > 0 && p.borrower in s.roster.members && id !in s.loans.loans
            && (p.phase == EditingPhase || p.phase == VotingPhase ==> p.status == Pending)
            && (p.status == ApprovedPendingDisbursement ==> p.phase == ExecutedPhase)
  {
    assert ProposalOk(s.loans, s.roster.members.Keys, s.history.disbursals, id);
  }

  lemma CastLoanVoteCredit(s: State, voter: Address, id: Id, support: bool)
    requires CreditInv(s) && Lending.CastLoanVote(s, voter, id, support).Success?
    requires var p := s.loans.proposals[id];
             && p.id == id && p.amount > 0 && p.borrower in s.roster.members && id !in s.loans.loans
             && (p.phase == EditingPhase || p.phase == VotingPhase ==> p.status == Pending)
    ensures CreditInv(Lending.CastLoanVote(s, voter, id, support).value)
  {
    var p := Lending.RefreshPhase(s.loans.proposals[id], s.now);
    var weight := VotingWeight(s, voter);
    var s1 := Lending.LoanBallotCast(s, id, voter, support, weight);
    var counted := Lending.CountedLoan(p, support, weight);
    assert Lending.CastLoanVote(s, voter, id, support) == Lending.SettleLoan(s1, counted);
    BallotCredit(s, id, voter, support, weight);
    SettleLoanCredit(s1, counted);
  }

  lemma BallotCredit(s: State, id: Id, voter: Address, support: bool, weight: int)
    requires CreditInv(s)
    ensures CreditInv(Lending.LoanBallotCast(s, id, voter, support, weight))
  {
  }

  lemma Votable(s: State, voter: Address, id: Id, support: bool)
    requires LifeInv(s) && Lending.CastLoanVote(s, voter, id, support).Success?
    ensures s.loans.proposals[id].status != Approved
  {
    assert ProposalOk(s.loans, s.roster.members.Keys, s.history.disbursals, id);
  }

  lemma OneVoteCredit(s: State, voter: Address, id: Id, support: bool)
    requires LifeInv(s) && CreditInv(s) && Lending.CastLoanVote(s, voter, id, support).Success?
    ensures CreditInv(Lending.CastLoanVote(s, voter, id, support).value)
  {
    Votable(s, voter, id, support);
    NotYetLent(s, id);
    CastLoanVoteCredit(s, voter, id, support);
  }

  lemma OneDisbursalCredit(s: State, id: Id)
    requires LifeInv(s) && CreditInv(s) && Lending.DisburseStep(s, id).Success?
    ensures CreditInv(Lending.DisburseStep(s, id).value)
  {
    NotYetLent(s, id);
    DisburseCredit(s, id);
  }

  lemma {:induction false} CastLoanVotesCredit(s: State, voter: Address, votes: seq<ProposalVote>)
    requires LifeInv(s) && CreditInv(s) && Lending.CastLoanVotes(s, voter, votes).Success?
    ensures CreditInv(Lending.CastLoanVotes(s, voter, votes).value)
    decreases |votes|
  {
    if votes != [] {
      CastLoanVoteLife(s, voter, votes[0].proposalId, votes[0].vote);
      OneVoteCredit(s, voter, votes[0].proposalId, votes[0].vote);
      CastLoanVotesCredit(Lending.CastLoanVote(s, voter, votes[0].proposalId, votes[0].vote).value, voter, votes[1..]);
    }
  }

  lemma DisburseCredit(s: State, id: Id)
    requires CreditInv(s) && Lending.DisburseStep(s, id).Success?
    requires var p := s.loans.proposals[id];
             p.id == id && p.amount > 0 && id !in s.loans.loans && p.phase == ExecutedPhase
    ensures CreditInv(Lending.DisburseStep(s, id).value)
  {
    var p := s.loans.proposals[id];
    DisbursalShape(s, p);
    DisburseFrame(s, id);
    assert p.(status := Approved) == p.(status := Approved, phase := ExecutedPhase);
    LentCredit(s, p, Lending.DisburseStep(s, id).value);
  }

  lemma RepayCredit(s: State, borrower: Address, id: Id, requested: Option<int>)
    requires CreditInv(s) && Lending.RepayStep(s, borrower, id, requested).Success?
    ensures CreditInv(Lending.RepayStep(s, borrower, id, requested).value)
  {
    var loan := s.loans.loans[id];
    var owed := Lending.Owed(loan, s.config.policy, s.now);
    var amount := if requested.Some? then requested.value else owed.totalRepayment - owed.amountRepaid;
    assert LoanOk(loan, s.history.loanTraces[id], LoanAsset(s, id) == s.config.token) && loan.id == id;
    OwedOk(loan, s.history.loanTraces[id], LoanAsset(s, id) == s.config.token, s.config.policy, s.now);
    RepayIsPayment(s, borrower, id, requested);
    PaymentCredit(s, owed, amount);
  }

  lemma PaymentCredit(s: State, owed: Loan, amount: int)
    requires CreditInv(s) && owed.id in s.loans.loans && s.loans.loans[owed.id].status == Active == owed.status
    requires owed.borrower == s.loans.loans[owed.id].borrower
    requires LoanOk(owed, s.history.loanTraces[owed.id], LoanAsset(s, owed.id) == s.config.token)
    requires 0 < amount <= owed.totalRepayment - owed.amountRepaid
    requires Lending.ApplyPayment(s, owed, amount).Success?
    ensures CreditInv(Lending.ApplyPayment(s, owed, amount).value)
  {
    PaymentShape(s, owed, amount);
    PaymentFrame(s, owed, amount);
    PaymentCounters(s.roster.members, s.loans.loans, owed.id, owed, amount);
    PaymentTraces(s.loans, s.config.token, s.history, owed, amount);
  }

  lemma PaymentCounters(ms: map<Address, Member>, loans: map<Id, Loan>, id: Id, owed: Loan, amount: int)
    requires CounterInv(ms, loans) && id in loans && loans[id].status == Active == owed.status
    requires owed.borrower == loans[id].borrower
    ensures var paid := Lending.Credited(owed, amount);
            CounterInv(if paid.totalRepayment == paid.amountRepaid
                       then ms[paid.borrower := Lending.Freed(ms[paid.borrower])] else ms, loans[id := paid])
  {
    var paid := Lending.Credited(owed, amount);
    if paid.status == Repaid {
      CountersClose(ms, loans, id, paid, Lending.Freed(ms[paid.borrower]));
    } else {
      CountersPay(ms, loans, id, paid);
    }
  }

  lemma PaymentTraces(b: LoanBook, token: Address, h: History, owed: Loan, amount: int)
    requires RepaymentInv(b, token, h.loanTraces) && owed.id in b.loans && owed.status == Active
    requires LoanOk(owed, h.loanTraces[owed.id], AssetOf(b.assets, owed.id, token) == token)
    requires 0 < amount <= owed.totalRepayment - owed.amountRepaid
    ensures
      var traces := if AssetOf(b.assets, owed.id, token) == token
                    then Record(h, InterestHanded(owed.id, Lending.InterestComponent(owed, amount))).loanTraces
                    else h.loanTraces;
      RepaymentInv(b.(loans := b.loans[owed.id := Lending.Credited(owed, amount)]), token, traces)
  {
    var base := AssetOf(b.assets, owed.id, token) == token;
    var trace := h.loanTraces[owed.id];
    PaymentKeeps(owed, trace, base, amount);
    if base {
      var handed := trace.handed + Lending.InterestComponent(owed, amount);
      RepaymentUpdate(b, token, h.loanTraces, owed.id, Lending.Credited(owed, amount), trace.(handed := handed));
    } else {
      RepaymentUpdate(b, token, h.loanTraces, owed.id, Lending.Credited(owed, amount), trace);
      assert h.loanTraces[owed.id := trace] == h.loanTraces;
    }
  }

  lemma DefaultCredit(s: State, id: Id)
    requires CreditInv(s) && Lending.DefaultStep(s, id).Success?
    ensures CreditInv(Lending.DefaultStep(s, id).value)
  {
    var b := s.loans.loans[id].borrower;
    DefaultShape(s, id);
    DefaultParts(s.roster.members, s.loans, s.config.token, s.history.loanTraces, id,
                 Lending.DefaultPenalty(s.roster.members[b].contribution, s.config.policy.defaultPenaltyBps));
  }

  lemma DefaultParts(ms: map<Address, Member>, b: LoanBook, token: Address, traces: map<Id, LoanTrace>, id: Id,
                     penalty: int)
    requires CounterInv(ms, b.loans) && RepaymentInv(b, token, traces)
    requires id in b.loans && b.loans[id].status == Active
    ensures var c := b.(loans := b.loans[id := b.loans[id].(status := Defaulted)]);
            var who := b.loans[id].borrower;
            && CounterInv(ms[who := Lending.Slashed(ms[who], penalty)], c.loans)
            && RepaymentInv(c, token, traces)
  {
    var who := b.loans[id].borrower;
    CountersClose(ms, b.loans, id, b.loans[id].(status := Defaulted), Lending.Slashed(ms[who], penalty));
    DefaultTraces(b, token, traces, id);
  }

  lemma DefaultTraces(b: LoanBook, token: Address, traces: map<Id, LoanTrace>, id: Id)
    requires RepaymentInv(b, token, traces) && id in b.loans && b.loans[id].status == Active
    ensures RepaymentInv(b.(loans := b.loans[id := b.loans[id].(status := Defaulted)]), token, traces)
  {
  }

  lemma RegisterCredit(s: State, who: Address)
    requires CreditInv(s) && Membership.RegisterStep(s, who).Success?
    ensures CreditInv(Membership.RegisterStep(s, who).value)
  {
    CountersJoin(s.roster, s.loans.loans, who, s.now, s.config.fee);
  }

  lemma ExitCredit(s: State, who: Address)
    requires CreditInv(s) && Membership.ExitStep(s, who).Success?
    ensures CreditInv(Membership.ExitStep(s, who).value)
  {
    CountersKept(s.roster.members, s.loans.loans, who, s.roster.members[who].(status := Inactive, shareBalance := 0));
  }

  lemma ClaimCredit(s: State, who: Address)
    requires CreditInv(s) && Membership.ClaimStep(s, who).Success?
    ensures CreditInv(Membership.ClaimStep(s, who).value)
  {
  }

  lemma StakingCredit(s: State, who: Address, amount: int)
    requires CreditInv(s)
    ensures var r := StakingOps.StakeStep(s, who, amount); r.Success? ==> CreditInv(r.value)
    ensures var r := StakingOps.UnstakeStep(s, who, amount); r.Success? ==> CreditInv(r.value)
  {
    var stake, unstake := StakingOps.StakeStep(s, who, amount), StakingOps.UnstakeStep(s, who, amount);
    if stake.Success? {
      SameCredit(s, stake.value);
    }
    if unstake.Success? {
      SameCredit(s, unstake.value);
    }
  }

  lemma SameCredit(s: State, t: State)
    requires CreditInv(s) && t.roster == s.roster && t.loans == s.loans && t.config == s.config
             && t.history == s.history
    ensures CreditInv(t)
  {
  }

  lemma StepMemberCredit(c: Crypto, s: State, a: Action)
    requires MemberAction(a) && CreditInv(s) && AttemptMember(s, a).Success?
    ensures CreditInv(AttemptMember(s, a).value)
  {
    match a
    case Register(who) => RegisterCredit(s, who);
    case Exit(who) => ExitCredit(s, who);
    case Claim(who) => ClaimCredit(s, who);
    case StakeTokens(who, amount) => StakingCredit(s, who, amount);
    case UnstakeTokens(who, amount) => StakingCredit(s, who, amount);
  }

  lemma StepLendCredit(c: Crypto, s: State, a: Action)
    requires LendAction(a)
    requires LifeInv(s) && CreditInv(s) && AttemptLend(s, a).Success?
    ensures CreditInv(AttemptLend(s, a).value)
  {
    match a
    case VoteLoan(who, id, support) => OneVoteCredit(s, who, id, support);
    case VoteLoans(who, votes) => CastLoanVotesCredit(s, who, votes);
    case Disburse(id) => OneDisbursalCredit(s, id);
  }

  lemma StepServiceCredit(c: Crypto, s: State, a: Action)
    requires ServiceAction(a)
    requires CreditInv(s) && AttemptService(s, a).Success?
    ensures CreditInv(AttemptService(s, a).value)
  {
    match a
    case Repay(who, id, requested) => RepayCredit(s, who, id, requested);
    case RepayInAsset(who, id, _) => RepayCredit(s, who, id, None);
    case MarkDefaulted(id) => DefaultCredit(s, id);
  }

  /** Opening or rewriting proposals leaves loans alone; a new id never carried a loan. */
  lemma ProposalCredit(s: State, t: State)
    requires LifeInv(s) && CreditInv(s) && BookEvolves(s.loans, t.loans)
    requires t.loans.loans == s.loans.loans && t.roster == s.roster && t.history == s.history
    requires t.config.token == s.config.token
    ensures CreditInv(t)
  {
    forall id | id in t.loans.loans
      ensures LoanOk(t.loans.loans[id], t.history.loanTraces[id],
                     AssetOf(t.loans.assets, id, t.config.token) == t.config.token)
    {
      assert ProposalOk(s.loans, s.roster.members.Keys, s.history.disbursals, id);
    }
  }

  lemma ProposalLoansKept(s: State, a: Action)
    requires ProposalAction(a) && AttemptProposal(s, a).Success?
    ensures AttemptProposal(s, a).value.loans.loans == s.loans.loans
  {
    match a
    case RequestLoan(who, amount, asset, cid) => RequestLoansKept(s, who, amount, asset, cid);
    case EditLoan(who, id, amount) => EditLoansKept(s, who, id, amount);
    case CancelLoan(who, id) => EditLoansKept(s, who, id, 0);
    case ExpireLoan(id) => EditLoansKept(s, 0, id, 0);
  }

  lemma RequestLoansKept(s: State, who: Address, amount: int, asset: Address, cid: Option<string>)
    ensures var r := Lending.RequestStep(s, who, amount, asset, cid);
            r.Success? ==> r.value.loans.loans == s.loans.loans
  {
  }

  lemma EditLoansKept(s: State, who: Address, id: Id, amount: int)
    ensures var r := Lending.EditStep(s, who, id, amount); r.Success? ==> r.value.loans.loans == s.loans.loans
    ensures var r := Lending.CancelLoanStep(s, who, id); r.Success? ==> r.value.loans.loans == s.loans.loans
    ensures var r := Lending.ExpireLoanStep(s, id); r.Success? ==> r.value.loans.loans == s.loans.loans
  {
  }

  lemma StepProposalCredit(c: Crypto, s: State, a: Action)
    requires ProposalAction(a) && LifeInv(s) && CreditInv(s)
    ensures CreditInv(Step(c, s, a))
  {
    StepLife(c, s, a);
    ProposalFrame(c, s, a);
    if AttemptProposal(s, a).Success? {
      ProposalLoansKept(s, a);
    }
    ProposalCredit(s, Step(c, s, a));
  }

  lemma StepCredit(c: Crypto, s: State, a: Action)
    requires LifeInv(s) && CreditInv(s)
    ensures CreditInv(Step(c, s, a))
  {
    if MemberAction(a) {
      if Attempt(c, s, a).Success? {
        StepMemberCredit(c, s, a);
      }
    } else if ProposalAction(a) {
      StepProposalCredit(c, s, a);
    } else if LendAction(a) {
      if Attempt(c, s, a).Success? {
        StepLendCredit(c, s, a);
      }
    } else if ServiceAction(a) {
      if Attempt(c, s, a).Success? {
        StepServiceCredit(c, s, a);
      }
    } else if TreasuryAction(a) {
      TreasuryFrame(c, s, a);
    } else {
      EnvironmentFrame(c, s, a);
    }
  }
}
