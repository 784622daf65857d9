/** Once editing has ended by the clock, what a loan proposal asks for never changes. */
module LoanTerms {
  import opened Types
  import opened Storage
  import opened TreasuryOps
  import opened System
  import opened Frames
  import opened Lifecycle
  import opened Voting
  import Ballots
  import Credit
  import Lending
  import StakeLock

  predicate SameTerms(p: LoanProposal, q: LoanProposal) {
    && q.amount == p.amount && q.interestRate == p.interestRate && q.duration == p.duration
    && q.totalRepayment == p.totalRepayment && q.editingPeriodEnd == p.editingPeriodEnd
  }

  /** Nothing that had stopped being editable at `now` has other terms, whatever phase its record is in. */
  ghost predicate TermsFixed(b: map<Id, LoanProposal>, d: map<Id, LoanProposal>, now: nat) {
    forall id :: id in b && b[id].editingPeriodEnd <= now ==> id in d && SameTerms(b[id], d[id])
  }

  lemma TermsRewritten(b: map<Id, LoanProposal>, d: map<Id, LoanProposal>, id: Id, now: nat)
    requires id in b && id in d && d == b[id := d[id]]
    requires b[id].editingPeriodEnd <= now ==> SameTerms(b[id], d[id])
    ensures TermsFixed(b, d, now)
  {
  }

  lemma TermsTransitive(b: map<Id, LoanProposal>, d: map<Id, LoanProposal>, f: map<Id, LoanProposal>, now: nat,
                        later: nat)
    requires TermsFixed(b, d, now) && TermsFixed(d, f, later) && now <= later
    ensures TermsFixed(b, f, now)
  {
    forall id | id in b && b[id].editingPeriodEnd <= now
      ensures id in f && SameTerms(b[id], f[id])
    {
      assert SameTerms(b[id], d[id]);
    }
  }

  lemma SettledTerms(s: State, p: LoanProposal, t: State)
    requires SettledByLending(s, p, t) || SettledWithout(s, p, t)
    ensures p.id in t.loans.proposals && SameTerms(p, t.loans.proposals[p.id])
    ensures t.loans.proposals == s.loans.proposals[p.id := t.loans.proposals[p.id]]
  {
  }

  lemma VoteTerms(s: State, voter: Address, id: Id, support: bool)
    requires LifeInv(s) && Lending.CastLoanVote(s, voter, id, support).Success?
    ensures TermsFixed(s.loans.proposals, Lending.CastLoanVote(s, voter, id, support).value.loans.proposals, s.now)
  {
    Credit.Votable(s, voter, id, support);
    Credit.NotYetLent(s, id);
    var weight := VotingWeight(s, voter);
    var s1 := Lending.LoanBallotCast(s, id, voter, support, weight);
    var counted := Lending.CountedLoan(Lending.RefreshPhase(s.loans.proposals[id], s.now), support, weight);
    Ballots.VoteIsSettle(s, voter, id, support);
    SettleLoanShape(s1, counted);
    SettledTerms(s1, counted, Lending.SettleLoan(s1, counted).value);
    TermsRewritten(s.loans.proposals, Lending.SettleLoan(s1, counted).value.loans.proposals, id, s.now);
  }

  lemma {:induction false} BatchTerms(s: State, voter: Address, votes: seq<ProposalVote>)
    requires LifeInv(s) && Lending.CastLoanVotes(s, voter, votes).Success?
    ensures TermsFixed(s.loans.proposals, Lending.CastLoanVotes(s, voter, votes).value.loans.proposals, s.now)
    decreases |votes|
  {
    if votes != [] {
      var s1 := Lending.CastLoanVote(s, voter, votes[0].proposalId, votes[0].vote).value;
      VoteTerms(s, voter, votes[0].proposalId, votes[0].vote);
      CastLoanVoteLife(s, voter, votes[0].proposalId, votes[0].vote);
      CastLoanVoteFrame(s, voter, votes[0].proposalId, votes[0].vote);
      BatchTerms(s1, voter, votes[1..]);
      TermsTransitive(s.loans.proposals, s1.loans.proposals,
                      Lending.CastLoanVotes(s1, voter, votes[1..]).value.loans.proposals, s.now, s.now);
    }
  }

  lemma DisburseTerms(s: State, id: Id)
    requires LifeInv(s) && Lending.DisburseStep(s, id).Success?
    ensures TermsFixed(s.loans.proposals, Lending.DisburseStep(s, id).value.loans.proposals, s.now)
  {
    var t := Lending.DisburseStep(s, id).value;
    DisburseLife(s, id);
    assert ProposalOk(s.loans, s.roster.members.Keys, s.history.disbursals, id);
    SettledTerms(s, s.loans.proposals[id], t);
    TermsRewritten(s.loans.proposals, t.loans.proposals, id, s.now);
  }

  lemma LendTerms(s: State, a: Action)
    requires LendAction(a) && LifeInv(s) && AttemptLend(s, a).Success?
    ensures TermsFixed(s.loans.proposals, AttemptLend(s, a).value.loans.proposals, s.now)
  {
    match a
    case VoteLoan(who, id, support) => VoteTerms(s, who, id, support);
    case VoteLoans(who, votes) => BatchTerms(s, who, votes);
    case Disburse(id) => DisburseTerms(s, id);
  }

  lemma RequestTerms(s: State, who: Address, amount: int, asset: Address, cid: Option<string>)
    requires LifeInv(s) && Lending.RequestStep(s, who, amount, asset, cid).Success?
    ensures TermsFixed(s.loans.proposals, Lending.RequestStep(s, who, amount, asset, cid).value.loans.proposals, s.now)
  {
    var t := Lending.RequestStep(s, who, amount, asset, cid).value;
    var p := Lending.NewProposal(s, who, amount, asset, cid);
    assert t.loans.proposals == s.loans.proposals[p.id := p];
    assert p.id !in s.loans.proposals;
  }

  lemma EditTerms(s: State, who: Address, id: Id, amount: int)
    requires LifeInv(s) && Lending.EditStep(s, who, id, amount).Success?
    ensures TermsFixed(s.loans.proposals, Lending.EditStep(s, who, id, amount).value.loans.proposals, s.now)
  {
    assert ProposalOk(s.loans, s.roster.members.Keys, s.history.disbursals, id);
    TermsRewritten(s.loans.proposals, Lending.EditStep(s, who, id, amount).value.loans.proposals, id, s.now);
  }

  lemma CancelTerms(s: State, who: Address, id: Id)
    requires LifeInv(s) && Lending.CancelLoanStep(s, who, id).Success?
    ensures TermsFixed(s.loans.proposals, Lending.CancelLoanStep(s, who, id).value.loans.proposals, s.now)
  {
    assert ProposalOk(s.loans, s.roster.members.Keys, s.history.disbursals, id);
    TermsRewritten(s.loans.proposals, Lending.CancelLoanStep(s, who, id).value.loans.proposals, id, s.now);
  }

  lemma ExpireTerms(s: State, id: Id)
    requires LifeInv(s) && Lending.ExpireLoanStep(s, id).Success?
    ensures TermsFixed(s.loans.proposals, Lending.ExpireLoanStep(s, id).value.loans.proposals, s.now)
  {
    assert ProposalOk(s.loans, s.roster.members.Keys, s.history.disbursals, id);
    var p := s.loans.proposals[id];
    if p.phase != ExpiredPhase {
      RefreshedTerms(p, s.now);
      TermsRewritten(s.loans.proposals, s.loans.proposals[id := Lending.RefreshPhase(p, s.now)], id, s.now);
    }
  }

  lemma RefreshedTerms(p: LoanProposal, now: nat)
    ensures SameTerms(p, Lending.RefreshPhase(p, now))
  {
  }

  lemma ProposalTerms(s: State, a: Action)
    requires ProposalAction(a) && LifeInv(s) && AttemptProposal(s, a).Success?
    ensures TermsFixed(s.loans.proposals, AttemptProposal(s, a).value.loans.proposals, s.now)
  {
    match a
    case RequestLoan(who, amount, asset, cid) => RequestTerms(s, who, amount, asset, cid);
    case EditLoan(who, id, amount) => EditTerms(s, who, id, amount);
    case CancelLoan(who, id) => CancelTerms(s, who, id);
    case ExpireLoan(id) => ExpireTerms(s, id);
  }

  lemma ServiceTerms(s: State, a: Action)
    requires ServiceAction(a) && AttemptService(s, a).Success?
    ensures AttemptService(s, a).value.loans.proposals == s.loans.proposals
  {
    match a
    case Repay(who, id, requested) => RepayTerms(s, who, id, requested);
    case RepayInAsset(who, id, _) => RepayTerms(s, who, id, None);
    case MarkDefaulted(id) => DefaultShape(s, id);
  }

  lemma RepayTerms(s: State, who: Address, id: Id, requested: Option<int>)
    requires Lending.RepayStep(s, who, id, requested).Success?
    ensures Lending.RepayStep(s, who, id, requested).value.loans.proposals == s.loans.proposals
  {
    var owed := Lending.Owed(s.loans.loans[id], s.config.policy, s.now);
    RepayIsPayment(s, who, id, requested);
    PaymentShape(s, owed, if requested.Some? then requested.value else owed.totalRepayment - owed.amountRepaid);
  }

  lemma StepTerms(c: Crypto, s: State, a: Action)
    requires LifeInv(s)
    ensures TermsFixed(s.loans.proposals, Step(c, s, a).loans.proposals, s.now)
  {
    if ProposalAction(a) || DebtAction(a) {
      if Attempt(c, s, a).Success? {
        TriedTerms(c, s, a, Step(c, s, a).loans.proposals);
      }
    } else {
      KeptLife(c, s, a);
    }
  }

  lemma TriedTerms(c: Crypto, s: State, a: Action, d: map<Id, LoanProposal>)
    requires LifeInv(s) && (ProposalAction(a) || DebtAction(a))
    requires Attempt(c, s, a).Success? && Attempt(c, s, a).value.loans.proposals == d
    ensures TermsFixed(s.loans.proposals, d, s.now)
  {
    if ProposalAction(a) {
      ProposalTerms(s, a);
    } else if LendAction(a) {
      LendTerms(s, a);
    } else {
      ServiceTerms(s, a);
    }
  }

  /** Over any run. */
  lemma {:induction false} RunTerms(c: Crypto, s: State, actions: seq<Action>)
    requires LifeInv(s)
    ensures TermsFixed(s.loans.proposals, Run(c, s, actions).loans.proposals, s.now)
    decreases |actions|
  {
    if actions != [] {
      var s1 := Step(c, s, actions[0]);
      StepTerms(c, s, actions[0]);
      StepLife(c, s, actions[0]);
      StakeLock.StepTime(c, s, actions[0]);
      RunTerms(c, s1, actions[1..]);
      TermsTransitive(s.loans.proposals, s1.loans.proposals, Run(c, s1, actions[1..]).loans.proposals, s.now, s1.now);
    }
  }
}
