/** The two histories of interest agree: what the loans handed out is what the yield ledger accepted,
    or what arrived while nobody was active to share it. */
module Interest {
  import opened Types
  import opened History
  import opened Storage
  import opened Sums
  import opened TreasuryOps
  import opened System
  import opened Frames
  import opened Lifecycle
  import opened Books
  import opened Voting
  import Ballots
  import Credit
  import Lending
  import Membership

  ghost function HandedBy(traces: map<Id, LoanTrace>): map<Id, int> {
    map id | id in traces :: traces[id].handed
  }

  ghost predicate HandedInv(h: History) {
    MapSum(HandedBy(h.loanTraces)) == h.ledger.accepted + h.ledger.unshared
  }

  /** Nothing that the two sides are made of has changed. */
  ghost predicate SameInterest(h: History, g: History) {
    && g.loanTraces == h.loanTraces
    && g.ledger.accepted == h.ledger.accepted && g.ledger.unshared == h.ledger.unshared
  }

  lemma TraceOpened(h: History, id: Id, borrower: Address, principal: int, total: int)
    requires HandedInv(h) && id !in h.loanTraces
    ensures HandedInv(Record(h, LoanApproved(id, borrower, principal, total)))
  {
    var g := Record(h, LoanApproved(id, borrower, principal, total));
    assert HandedBy(g.loanTraces) == HandedBy(h.loanTraces)[id := 0];
    MapSumUpdate(HandedBy(h.loanTraces), id, 0);
  }

  /** A payment's interest enters both histories. */
  lemma InterestEntered(h: History, id: Id, interest: int, active: nat)
    requires HandedInv(h) && id in h.loanTraces && interest >= 0
    requires active == 0 <==> h.ledger.credit == map[]
    ensures var g := Record(h, InterestHanded(id, interest));
            HandedInv(if interest <= 0 || active == 0 then g else Record(g, InterestPaid(interest)))
  {
    var g := Record(h, InterestHanded(id, interest));
    var handed := h.loanTraces[id].handed + interest;
    assert HandedBy(g.loanTraces) == HandedBy(h.loanTraces)[id := handed];
    MapSumUpdate(HandedBy(h.loanTraces), id, handed);
    if active != 0 {
      var k :| k in h.ledger.credit;
      assert |h.ledger.credit| != 0;
    }
  }

  lemma LentHanded(s: State, p: LoanProposal, t: State)
    requires HandedInv(s.history) && SettledByLending(s, p, t) && p.id !in s.history.loanTraces
    ensures HandedInv(t.history)
  {
    var loan := LoanFor(s, p);
    TraceOpened(s.history, p.id, p.borrower, loan.principal, loan.totalRepayment);
  }

  lemma SettledHanded(s: State, p: LoanProposal)
    requires HandedInv(s.history) && p.id !in s.history.loanTraces
    requires p.status == Pending && p.borrower in s.roster.members && Lending.SettleLoan(s, p).Success?
    ensures HandedInv(Lending.SettleLoan(s, p).value.history)
  {
    SettleLoanShape(s, p);
    if SettledByLending(s, p, Lending.SettleLoan(s, p).value) {
      LentHanded(s, p, Lending.SettleLoan(s, p).value);
    }
  }

  lemma BallotHanded(s: State, id: Id, voter: Address, support: bool, weight: int)
    requires HandedInv(s.history)
    ensures var h := Lending.LoanBallotCast(s, id, voter, support, weight).history;
            HandedInv(h) && h.loanTraces == s.history.loanTraces
  {
  }

  lemma NotYetTraced(s: State, id: Id)
    requires Credit.CreditInv(s) && id !in s.loans.loans
    ensures id !in s.history.loanTraces
  {
  }

  lemma VoteHanded(s: State, voter: Address, id: Id, support: bool)
    requires LifeInv(s) && Credit.CreditInv(s) && HandedInv(s.history)
    requires Lending.CastLoanVote(s, voter, id, support).Success?
    ensures HandedInv(Lending.CastLoanVote(s, voter, id, support).value.history)
  {
    Credit.Votable(s, voter, id, support);
    Credit.NotYetLent(s, id);
    NotYetTraced(s, id);
    CastHanded(s, voter, id, support);
  }

  lemma CastHanded(s: State, voter: Address, id: Id, support: bool)
    requires HandedInv(s.history) && id !in s.history.loanTraces
    requires Lending.CastLoanVote(s, voter, id, support).Success?
    requires var p := s.loans.proposals[id];
             p.id == id && p.borrower in s.roster.members
             && (p.phase == EditingPhase || p.phase == VotingPhase ==> p.status == Pending)
    ensures HandedInv(Lending.CastLoanVote(s, voter, id, support).value.history)
  {
    var weight := VotingWeight(s, voter);
    Ballots.VoteIsSettle(s, voter, id, support);
    BallotHanded(s, id, voter, support, weight);
    SettledHanded(Lending.LoanBallotCast(s, id, voter, support, weight),
                  Lending.CountedLoan(Lending.RefreshPhase(s.loans.proposals[id], s.now), support, weight));
  }

  lemma {:induction false} BatchHanded(s: State, voter: Address, votes: seq<ProposalVote>)
    requires LifeInv(s) && Credit.CreditInv(s) && HandedInv(s.history)
    requires Lending.CastLoanVotes(s, voter, votes).Success?
    ensures HandedInv(Lending.CastLoanVotes(s, voter, votes).value.history)
    decreases |votes|
  {
    if votes != [] {
      VoteHanded(s, voter, votes[0].proposalId, votes[0].vote);
      CastLoanVoteLife(s, voter, votes[0].proposalId, votes[0].vote);
      Credit.OneVoteCredit(s, voter, votes[0].proposalId, votes[0].vote);
      BatchHanded(Lending.CastLoanVote(s, voter, votes[0].proposalId, votes[0].vote).value, voter, votes[1..]);
    }
  }

  lemma DisburseHanded(s: State, id: Id)
    requires LifeInv(s) && Credit.CreditInv(s) && HandedInv(s.history) && Lending.DisburseStep(s, id).Success?
    ensures HandedInv(Lending.DisburseStep(s, id).value.history)
  {
    Credit.NotYetLent(s, id);
    DisburseLife(s, id);
    LentHanded(s, s.loans.proposals[id], Lending.DisburseStep(s, id).value);
  }

  /** The history after a payment. */
  ghost function PaidHistory(s: State, id: Id, interest: int): History {
    var g := Record(s.history, InterestHanded(id, interest));
    if LoanAsset(s, id) != s.config.token then s.history
    else if interest <= 0 || s.roster.active == 0 then g
    else Record(g, InterestPaid(interest))
  }

  lemma PaymentHistory(s: State, loan: Loan, amount: int)
    requires Lending.ApplyPayment(s, loan, amount).Success?
    ensures Lending.ApplyPayment(s, loan, amount).value.history
            == PaidHistory(s, loan.id, Lending.InterestComponent(loan, amount))
  {
  }

  lemma PaidHanded(s: State, id: Id, interest: int)
    requires HandedInv(s.history) && id in s.history.loanTraces && interest >= 0
    requires s.roster.active == 0 <==> s.history.ledger.credit == map[]
    ensures HandedInv(PaidHistory(s, id, interest))
  {
    InterestEntered(s.history, id, interest, s.roster.active);
  }

  lemma RepayHanded(s: State, borrower: Address, id: Id, requested: Option<int>)
    requires HandedInv(s.history) && s.loans.loans.Keys == s.history.loanTraces.Keys
    requires s.roster.active == 0 <==> s.history.ledger.credit == map[]
    requires id in s.loans.loans && s.loans.loans[id].id == id
    requires Lending.RepayStep(s, borrower, id, requested).Success?
    ensures HandedInv(Lending.RepayStep(s, borrower, id, requested).value.history)
  {
    var owed := Lending.Owed(s.loans.loans[id], s.config.policy, s.now);
    var amount := if requested.Some? then requested.value else owed.totalRepayment - owed.amountRepaid;
    RepayIsPayment(s, borrower, id, requested);
    PaymentHistory(s, owed, amount);
    InterestNonNegative(s.loans.loans[id], s.config.policy, s.now, amount);
    PaidHanded(s, id, Lending.InterestComponent(owed, amount));
  }

  lemma RepayReady(s: State, borrower: Address, id: Id, requested: Option<int>)
    requires BooksInv(s) && Credit.CreditInv(s) && Lending.RepayStep(s, borrower, id, requested).Success?
    ensures s.loans.loans.Keys == s.history.loanTraces.Keys
    ensures s.roster.active == 0 <==> s.history.ledger.credit == map[]
    ensures id in s.loans.loans && s.loans.loans[id].id == id
  {
    RepayIsPayment(s, borrower, id, requested);
    NobodyCredited(s.roster, s.accrual, s.history.ledger);
  }

  lemma DefaultHanded(s: State, id: Id)
    requires HandedInv(s.history) && Lending.DefaultStep(s, id).Success?
    ensures HandedInv(Lending.DefaultStep(s, id).value.history)
  {
    DefaultShape(s, id);
    assert SameInterest(s.history, Lending.DefaultStep(s, id).value.history);
  }

  lemma RepaymentHanded(s: State, borrower: Address, id: Id, requested: Option<int>)
    requires BooksInv(s) && Credit.CreditInv(s) && HandedInv(s.history)
    requires Lending.RepayStep(s, borrower, id, requested).Success?
    ensures HandedInv(Lending.RepayStep(s, borrower, id, requested).value.history)
  {
    RepayReady(s, borrower, id, requested);
    RepayHanded(s, borrower, id, requested);
  }

  lemma InterestNonNegative(loan: Loan, policy: Policy, now: nat, amount: int)
    requires amount > 0
    ensures Lending.InterestComponent(Lending.Owed(loan, policy, now), amount) >= 0
  {
  }

  lemma NobodyCredited(r: Roster, y: Accrual, l: YieldLedger)
    requires r.active == |ActiveSet(r.members)| && YieldInv(y, ActiveSet(r.members), l)
    ensures r.active == 0 <==> l.credit == map[]
  {
    if r.active == 0 {
      assert l.credit.Keys == {};
    }
  }

  // ---- every step ----

  lemma JoinLeaveClaim(s: State, who: Address)
    ensures var r := Membership.RegisterStep(s, who); r.Success? ==> SameInterest(s.history, r.value.history)
    ensures var r := Membership.ExitStep(s, who); r.Success? ==> SameInterest(s.history, r.value.history)
    ensures var r := Membership.ClaimStep(s, who); r.Success? ==> SameInterest(s.history, r.value.history)
  {
  }

  lemma MemberHanded(c: Crypto, s: State, a: Action)
    requires MemberAction(a)
    ensures SameInterest(s.history, Step(c, s, a).history)
  {
    match a
    case Register(who) => JoinLeaveClaim(s, who);
    case Exit(who) => JoinLeaveClaim(s, who);
    case Claim(who) => JoinLeaveClaim(s, who);
    case StakeTokens(_, _) =>
    case UnstakeTokens(_, _) =>
  }

  lemma LendHanded(c: Crypto, s: State, a: Action)
    requires LendAction(a)
    requires LifeInv(s) && Credit.CreditInv(s) && HandedInv(s.history) && AttemptLend(s, a).Success?
    ensures HandedInv(AttemptLend(s, a).value.history)
  {
    match a
    case VoteLoan(who, id, support) => VoteHanded(s, who, id, support);
    case VoteLoans(who, votes) => BatchHanded(s, who, votes);
    case Disburse(id) => DisburseHanded(s, id);
  }

  lemma ServiceHanded(c: Crypto, s: State, a: Action)
    requires ServiceAction(a)
    requires BooksInv(s) && Credit.CreditInv(s) && HandedInv(s.history) && AttemptService(s, a).Success?
    ensures HandedInv(AttemptService(s, a).value.history)
  {
    match a
    case Repay(who, id, requested) => RepaymentHanded(s, who, id, requested);
    case RepayInAsset(who, id, _) => RepaymentHanded(s, who, id, None);
    case MarkDefaulted(id) => DefaultHanded(s, id);
  }

  lemma StepHanded(c: Crypto, s: State, a: Action)
    requires BooksInv(s) && LifeInv(s) && Credit.CreditInv(s) && HandedInv(s.history)
    ensures HandedInv(Step(c, s, a).history)
  {
    if MemberAction(a) {
      MemberHanded(c, s, a);
    } else if DebtAction(a) {
      if Attempt(c, s, a).Success? {
        if LendAction(a) {
          LendHanded(c, s, a);
        } else {
          ServiceHanded(c, s, a);
        }
      }
    } else if TreasuryAction(a) {
      TreasuryFrame(c, s, a);
    } else if ProposalAction(a) {
      ProposalFrame(c, s, a);
    } else {
      EnvironmentFrame(c, s, a);
    }
  }

  lemma InitialHanded(s: State)
    requires Initial(s)
    ensures HandedInv(s.history)
  {
    assert HandedBy(s.history.loanTraces) == map[];
  }
}
