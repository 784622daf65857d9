/** Which parts of the state each kind of action leaves alone. */
module Frames {
  import opened Types
  import opened Arithmetic
  import opened History
  import opened Storage
  import opened TreasuryOps
  import opened System
  import opened Voting
  import Membership
  import StakingOps
  import Lending

  /** Members, stakes and yield. */
  ghost predicate SameBooks(s: State, t: State) {
    && SameConstants(s, t)
    && t.roster == s.roster && t.staking == s.staking && t.accrual == s.accrual
    && t.history.ledger == s.history.ledger && t.history.slashedInactive == s.history.slashedInactive
  }

  /** Loan proposals, loans and their ballots. */
  ghost predicate SameLoans(s: State, t: State) {
    && SameConstants(s, t)
    && t.loans == s.loans && t.history.loanTraces == s.history.loanTraces
    && t.history.disbursals == s.history.disbursals && t.history.loanBallots == s.history.loanBallots
  }

  /** Withdrawal proposals, their ballots and commitments. */
  ghost predicate SameTreasury(s: State, t: State) {
    && SameConstants(s, t)
    && t.treasury == s.treasury && t.history.payouts == s.history.payouts
    && t.history.treasuryBallots == s.history.treasuryBallots
    && t.history.commits == s.history.commits && t.history.openings == s.history.openings
  }

  /** Fixed at initialisation; records of members are never deleted, and time does not run back. */
  ghost predicate SameConstants(s: State, t: State) {
    && t.config.self == s.config.self && t.config.token == s.config.token && t.config.fee == s.config.fee
    && s.roster.members.Keys <= t.roster.members.Keys
    && s.now <= t.now
  }

  lemma EnvironmentFrame(c: Crypto, s: State, a: Action)
    requires EnvironmentAction(a)
    ensures SameBooks(s, Step(c, s, a)) && SameLoans(s, Step(c, s, a)) && SameTreasury(s, Step(c, s, a))
  {
    match a
    case Tick(seconds) =>
    case Govern(_, _, _, _) => assert EnvironmentFramed(s, Step(c, s, a));
    case OutsideTransfer(_, _, _) => assert EnvironmentFramed(s, Step(c, s, a));
    case Delegate(who, delegatee) => DelegateFrame(s, who, delegatee);
  }

  ghost predicate EnvironmentFramed(s: State, t: State) {
    && t == s.(config := t.config, balances := t.balances, delegations := t.delegations)
    && t.config.self == s.config.self && t.config.token == s.config.token && t.config.fee == s.config.fee
  }

  lemma DelegateFrame(s: State, who: Address, delegatee: Address)
    ensures var r := DelegateStep(s, who, delegatee); r.Success? ==> EnvironmentFramed(s, r.value)
  {
  }

  // ---- membership and staking ----

  ghost predicate MemberFramed(s: State, t: State) {
    && t == s.(roster := t.roster, staking := t.staking, accrual := t.accrual, balances := t.balances,
               history := s.history.(ledger := t.history.ledger))
    && s.roster.members.Keys <= t.roster.members.Keys
  }

  lemma MembershipFrame(s: State, who: Address)
    ensures var r := Membership.RegisterStep(s, who); r.Success? ==> MemberFramed(s, r.value)
    ensures var r := Membership.ExitStep(s, who); r.Success? ==> MemberFramed(s, r.value)
    ensures var r := Membership.ClaimStep(s, who); r.Success? ==> MemberFramed(s, r.value)
  {
  }

  lemma StakingFrame(s: State, who: Address, amount: int)
    ensures var r := StakingOps.StakeStep(s, who, amount); r.Success? ==> MemberFramed(s, r.value)
    ensures var r := StakingOps.UnstakeStep(s, who, amount); r.Success? ==> MemberFramed(s, r.value)
  {
  }

  lemma MemberFrame(c: Crypto, s: State, a: Action)
    requires MemberAction(a)
    ensures MemberFramed(s, Step(c, s, a))
  {
    match a
    case Register(who) => MembershipFrame(s, who);
    case Exit(who) => MembershipFrame(s, who);
    case Claim(who) => MembershipFrame(s, who);
    case StakeTokens(who, amount) => StakingFrame(s, who, amount);
    case UnstakeTokens(who, amount) => StakingFrame(s, who, amount);
  }

  // ---- loan proposals before the vote ----

  ghost predicate ProposalFramed(s: State, t: State) {
    t == s.(loans := t.loans, quota := t.quota)
  }

  lemma RequestFrame(s: State, who: Address, amount: int, asset: Address, cid: Option<string>)
    ensures var r := Lending.RequestStep(s, who, amount, asset, cid); r.Success? ==> ProposalFramed(s, r.value)
  {
  }

  lemma EditFrame(s: State, who: Address, id: Id, amount: int)
    ensures var r := Lending.EditStep(s, who, id, amount); r.Success? ==> ProposalFramed(s, r.value)
    ensures var r := Lending.CancelLoanStep(s, who, id); r.Success? ==> ProposalFramed(s, r.value)
    ensures var r := Lending.ExpireLoanStep(s, id); r.Success? ==> ProposalFramed(s, r.value)
  {
  }

  lemma ProposalFrame(c: Crypto, s: State, a: Action)
    requires ProposalAction(a)
    ensures ProposalFramed(s, Step(c, s, a))
  {
    match a
    case RequestLoan(who, amount, asset, cid) => RequestFrame(s, who, amount, asset, cid);
    case EditLoan(who, id, amount) => EditFrame(s, who, id, amount);
    case CancelLoan(who, id) => EditFrame(s, who, id, 0);
    case ExpireLoan(id) => EditFrame(s, 0, id, 0);
  }

  // ---- loan votes, disbursements, repayments and defaults ----

  ghost predicate DebtFramed(s: State, t: State) {
    && t == s.(loans := t.loans, roster := t.roster, accrual := t.accrual, quota := t.quota, balances := t.balances,
               history := t.history)
    && s.roster.members.Keys <= t.roster.members.Keys
    && t.history == s.history.(ledger := t.history.ledger, slashedInactive := t.history.slashedInactive,
                               loanTraces := t.history.loanTraces, disbursals := t.history.disbursals,
                               loanBallots := t.history.loanBallots)
  }

  ghost predicate LendingFramed(s: State, t: State) {
    DebtFramed(s, t) && t.history.slashedInactive == s.history.slashedInactive
  }

  lemma DisbursalFrame(s: State, p: LoanProposal)
    ensures match Lending.ApproveAndDisburse(s, p)
            case Paid(s1) => LendingFramed(s, s1)
            case Refused(s1, _) => LendingFramed(s, s1)
            case HostTrap => true
  {
  }

  lemma SettleLoanFrame(s: State, p: LoanProposal)
    ensures Lending.SettleLoan(s, p).Success? ==> LendingFramed(s, Lending.SettleLoan(s, p).value)
  {
    var approved := p.(status := ApprovedPendingDisbursement, phase := ExecutedPhase);
    DisbursalFrame(WithLoanProposal(s, approved), approved);
  }

  lemma CastLoanVoteFrame(s: State, voter: Address, id: Id, support: bool)
    ensures var r := Lending.CastLoanVote(s, voter, id, support);
            r.Success? ==> LendingFramed(s, r.value)
  {
    if id in s.loans.proposals {
      var p := Lending.RefreshPhase(s.loans.proposals[id], s.now);
      var weight := VotingWeight(s, voter);
      SettleLoanFrame(Lending.LoanBallotCast(s, p.id, voter, support, weight), Lending.CountedLoan(p, support, weight));
    }
  }

  lemma {:induction false} CastLoanVotesFrame(s: State, voter: Address, votes: seq<ProposalVote>)
    ensures var r := Lending.CastLoanVotes(s, voter, votes);
            r.Success? ==> LendingFramed(s, r.value)
    decreases |votes|
  {
    if votes != [] {
      var r := Lending.CastLoanVote(s, voter, votes[0].proposalId, votes[0].vote);
      CastLoanVoteFrame(s, voter, votes[0].proposalId, votes[0].vote);
      if r.Success? {
        CastLoanVotesFrame(r.value, voter, votes[1..]);
      }
    }
  }

  lemma DisburseFrame(s: State, id: Id)
    ensures var r := Lending.DisburseStep(s, id); r.Success? ==> LendingFramed(s, r.value)
  {
    if id in s.loans.proposals {
      DisbursalFrame(s, s.loans.proposals[id]);
    }
  }

  lemma PaymentFrame(s: State, loan: Loan, amount: int)
    ensures var r := Lending.ApplyPayment(s, loan, amount);
            r.Success? ==> LendingFramed(s, r.value)
  {
    HandedFrame(Lending.Booked(s, loan, amount), loan.id, Lending.InterestComponent(loan, amount));
    BookedFrame(s, loan, amount);
  }

  lemma BookedFrame(s: State, loan: Loan, amount: int)
    ensures LendingFramed(s, Lending.Booked(s, loan, amount))
  {
  }

  lemma HandedFrame(s: State, id: Id, interest: int)
    ensures LendingFramed(s, Lending.HandedOut(s, id, interest))
  {
  }

  lemma RepayFrame(s: State, borrower: Address, id: Id, requested: Option<int>)
    ensures var r := Lending.RepayStep(s, borrower, id, requested); r.Success? ==> LendingFramed(s, r.value)
  {
    if id in s.loans.loans {
      var loan := Lending.Owed(s.loans.loans[id], s.config.policy, s.now);
      PaymentFrame(s, loan, if requested.Some? then requested.value else loan.totalRepayment - loan.amountRepaid);
    }
  }

  /** What a default does: the loan is closed, and a recorded borrower is slashed and loses the
      pending yield. */
  ghost predicate DefaultedTo(s: State, id: Id, t: State) {
    && id in s.loans.loans && s.loans.loans[id].status == Active
    && t == s.(loans := s.loans.(loans := s.loans.loans[id := s.loans.loans[id].(status := Defaulted)]),
               roster := t.roster, accrual := t.accrual, history := t.history)
    && var who := s.loans.loans[id].borrower;
    if who in s.roster.members then
      var m := s.roster.members[who];
      var penalty := Lending.DefaultPenalty(m.contribution, s.config.policy.defaultPenaltyBps);
      && t.roster == s.roster.(members := s.roster.members[who := Lending.Slashed(m, penalty)],
                               contributions := s.roster.contributions - penalty)
      && t.accrual == s.accrual.(snapshots := s.accrual.snapshots[who := s.accrual.accumulator])
      && t.history == s.history.(ledger := RecordYield(s.history.ledger, LoanDefaulted(who, penalty)),
                                 slashedInactive := s.history.slashedInactive
                                                    + if who in s.history.ledger.credit then 0 else penalty)
    else t.roster == s.roster && t.accrual == s.accrual && t.history == s.history
  }

  lemma DefaultShape(s: State, id: Id)
    requires Lending.DefaultStep(s, id).Success?
    ensures DefaultedTo(s, id, Lending.DefaultStep(s, id).value)
  {
  }

  lemma DefaultFrame(s: State, id: Id)
    ensures var r := Lending.DefaultStep(s, id); r.Success? ==> DebtFramed(s, r.value)
  {
    if Lending.DefaultStep(s, id).Success? {
      DefaultShape(s, id);
    }
  }

  lemma LendFrame(s: State, a: Action)
    requires LendAction(a)
    ensures var r := AttemptLend(s, a); r.Success? ==> LendingFramed(s, r.value)
  {
    match a
    case VoteLoan(who, id, support) => CastLoanVoteFrame(s, who, id, support);
    case VoteLoans(who, votes) => CastLoanVotesFrame(s, who, votes);
    case Disburse(id) => DisburseFrame(s, id);
  }

  lemma ServiceFrame(s: State, a: Action)
    requires ServiceAction(a)
    ensures var r := AttemptService(s, a); r.Success? ==> DebtFramed(s, r.value)
  {
    match a
    case Repay(who, id, requested) => RepayFrame(s, who, id, requested);
    case RepayInAsset(who, id, _) => RepayFrame(s, who, id, None);
    case MarkDefaulted(id) => DefaultFrame(s, id);
  }

  lemma DebtFrame(c: Crypto, s: State, a: Action)
    requires DebtAction(a)
    ensures DebtFramed(s, Step(c, s, a))
  {
    if LendAction(a) {
      LendFrame(s, a);
    } else {
      ServiceFrame(s, a);
    }
  }

  // ---- treasury actions ----

  ghost predicate TreasuryFramed(s: State, t: State) {
    && t == s.(treasury := t.treasury, quota := t.quota, balances := t.balances, history := t.history)
    && t.history == s.history.(payouts := t.history.payouts, treasuryBallots := t.history.treasuryBallots,
                               commits := t.history.commits, openings := t.history.openings)
  }

  lemma ExecuteFrame(s: State, p: TreasuryProposal)
    ensures match Execute(s, p)
            case Paid(s1) => TreasuryFramed(s, s1)
            case Refused(s1, _) => TreasuryFramed(s, s1)
            case HostTrap => true
  {
  }

  lemma SettleFrame(s: State, p: TreasuryProposal)
    ensures Settle(s, p).Success? ==> TreasuryFramed(s, Settle(s, p).value)
  {
    var approved := p.(status := ApprovedPendingDisbursement);
    if p.forVotes >= RequiredVotes(s.roster.active, p.treasuryThreshold) {
      ExecuteFrame(s, approved);
      match Execute(s, approved)
      case Paid(s1) => assert TreasuryFramed(s1, WithTreasuryProposal(s1, approved.(status := Executed)));
      case Refused(s1, _) => assert TreasuryFramed(s1, WithTreasuryProposal(s1, approved));
      case HostTrap =>
    }
  }

  lemma TallyFrame(s: State, p: TreasuryProposal, voter: Address, support: bool)
    ensures Tally(s, p, voter, support).Success? ==> TreasuryFramed(s, Tally(s, p, voter, support).value)
  {
    var weight := VotingWeight(s, voter);
    SettleFrame(BallotCast(s, p.id, voter, support, weight), Counted(p, support, weight));
  }

  lemma ProposeFrame(s: State, who: Address, amount: int, asset: Address, destination: Address, reason: string,
                     isPrivate: bool)
    ensures var r := ProposeStep(s, who, amount, asset, destination, reason, isPrivate);
            r.Success? ==> TreasuryFramed(s, r.value)
  {
  }

  lemma CommitFrame(s: State, voter: Address, id: Id, digest: Bytes32)
    ensures var r := CommitStep(s, voter, id, digest);
            r.Success? ==> TreasuryFramed(s, r.value)
  {
  }

  lemma VoteFrame(s: State, voter: Address, id: Id, support: bool)
    ensures var r := VoteStep(s, voter, id, support);
            r.Success? ==> TreasuryFramed(s, r.value)
  {
    if id in s.treasury.proposals {
      TallyFrame(s, s.treasury.proposals[id], voter, support);
    }
  }

  lemma RevealFrame(c: Crypto, s: State, voter: Address, id: Id, support: bool, salt: Bytes32)
    ensures var r := RevealStep(c, s, voter, id, support, salt);
            r.Success? ==> TreasuryFramed(s, r.value)
  {
    if RevealStep(c, s, voter, id, support, salt).Success? {
      var s1 := CommitmentOpened(s, id, voter, support, salt);
      RevealIsTally(c, s, voter, id, support, salt);
      OpeningFrame(s, id, voter, support, salt);
      TallyFrame(s1, s.treasury.proposals[id], voter, support);
      FramedTwice(s, s1, Tally(s1, s.treasury.proposals[id], voter, support).value);
    }
  }

  lemma RevealIsTally(c: Crypto, s: State, voter: Address, id: Id, support: bool, salt: Bytes32)
    requires RevealStep(c, s, voter, id, support, salt).Success?
    ensures id in s.treasury.proposals
    ensures RevealStep(c, s, voter, id, support, salt) ==
            Tally(CommitmentOpened(s, id, voter, support, salt), s.treasury.proposals[id], voter, support)
  {
  }

  lemma OpeningFrame(s: State, id: Id, voter: Address, support: bool, salt: Bytes32)
    ensures TreasuryFramed(s, CommitmentOpened(s, id, voter, support, salt))
  {
  }

  lemma FramedTwice(s: State, s1: State, t: State)
    requires TreasuryFramed(s, s1) && TreasuryFramed(s1, t)
    ensures TreasuryFramed(s, t)
  {
  }

  lemma CloseFrame(s: State, who: Address, id: Id)
    ensures var r := ExecuteApprovedStep(s, id); r.Success? ==> TreasuryFramed(s, r.value)
    ensures var r := CancelStep(s, who, id); r.Success? ==> TreasuryFramed(s, r.value)
    ensures var r := ExpireStep(s, id); r.Success? ==> TreasuryFramed(s, r.value)
  {
    if id in s.treasury.proposals {
      ExecuteFrame(s, s.treasury.proposals[id]);
    }
  }

  lemma TreasuryFrame(c: Crypto, s: State, a: Action)
    requires TreasuryAction(a)
    ensures TreasuryFramed(s, Step(c, s, a))
  {
    WithdrawalFrame(c, s, a);
    FramedReflexive(s);
  }

  lemma FramedReflexive(s: State)
    ensures TreasuryFramed(s, s)
  {
  }

  lemma WithdrawalFrame(c: Crypto, s: State, a: Action)
    requires TreasuryAction(a)
    ensures var r := AttemptTreasury(c, s, a); r.Success? ==> TreasuryFramed(s, r.value)
  {
    match a
    case Propose(who, amount, asset, destination, reason, isPrivate) =>
      ProposeFrame(s, who, amount, asset, destination, reason, isPrivate);
    case VoteTreasury(who, id, support) => VoteFrame(s, who, id, support);
    case Commit(who, id, digest) => CommitFrame(s, who, id, digest);
    case RevealVote(who, id, support, salt) => RevealFrame(c, s, who, id, support, salt);
    case ExecuteTreasury(id) => CloseFrame(s, 0, id);
    case CancelTreasury(who, id) => CloseFrame(s, who, id);
    case ExpireTreasury(id) => CloseFrame(s, 0, id);
  }
}
