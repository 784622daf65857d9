/** Payments made inside a ballot: the errors a ballot swallows have written nothing, and none of them traps. */
module InnerFailures {
  import opened Types
  import opened History
  import opened Storage
  import opened Sums
  import opened TreasuryOps
  import opened System
  import opened Frames
  import opened Voting
  import opened Reachability
  import Ballots
  import Cash
  import Lending
  import Lifecycle
  import Withdrawals

  /** A payout that passes its checks is covered. */
  lemma PayoutsCovered(t: State, p: LoanProposal, w: TreasuryProposal)
    requires t.staking.total >= 0
    ensures !Lending.ApproveAndDisburse(t, p).HostTrap? && !Execute(t, w).HostTrap?
  {
  }

  lemma TotalNonNegative(c: Crypto, s: State)
    requires Inv(c, s)
    ensures s.staking.total >= 0
  {
    MapSumNonNegative(s.staking.stakes);
  }

  // ---- inside a ballot ----

  /** The proposal as a ballot that approves it hands it to the disbursement. */
  ghost function LoanApproval(s: State, voter: Address, id: Id, support: bool): LoanProposal
    requires id in s.loans.proposals
  {
    Lifecycle.ApprovedFrom(Lending.CountedLoan(Lending.RefreshPhase(s.loans.proposals[id], s.now), support,
                                               VotingWeight(s, voter)))
  }

  /** A loan parked by a ballot: the ballot and the approval were recorded, and nothing else happened. */
  ghost predicate LoanParked(s: State, t: State, voter: Address, id: Id, support: bool)
    requires id in s.loans.proposals
  {
    && t.loans == s.loans.(voted := s.loans.voted + {(id, voter)},
                           proposals := s.loans.proposals[id := LoanApproval(s, voter, id, support)])
    && t == s.(loans := t.loans, quota := t.quota,
               history := Record(s.history, LoanVoteCast(id, voter, support, VotingWeight(s, voter))))
  }

  lemma ParkedLoan(s: State, voter: Address, id: Id, support: bool)
    requires Lifecycle.LifeInv(s) && Lending.CastLoanVote(s, voter, id, support).Success?
    requires var t := Lending.CastLoanVote(s, voter, id, support).value;
             id in t.loans.proposals && t.loans.proposals[id].status == ApprovedPendingDisbursement
    ensures LoanParked(s, Lending.CastLoanVote(s, voter, id, support).value, voter, id, support)
  {
    var weight := VotingWeight(s, voter);
    assert Lifecycle.ProposalOk(s.loans, s.roster.members.Keys, s.history.disbursals, id);
    var counted := Lending.CountedLoan(Lending.RefreshPhase(s.loans.proposals[id], s.now), support, weight);
    Ballots.VoteIsSettle(s, voter, id, support);
    ParkedBySettling(Lending.LoanBallotCast(s, id, voter, support, weight), counted);
  }

  lemma ParkedBySettling(s: State, p: LoanProposal)
    requires p.status == Pending && p.borrower in s.roster.members && Lending.SettleLoan(s, p).Success?
    requires p.id in s.loans.proposals && s.loans.proposals[p.id].status != Approved
    requires Lending.SettleLoan(s, p).value.loans.proposals[p.id].status == ApprovedPendingDisbursement
    ensures var t := Lending.SettleLoan(s, p).value;
            t == s.(loans := s.loans.(proposals := s.loans.proposals[p.id := Lifecycle.ApprovedFrom(p)]),
                    quota := t.quota)
  {
    Lifecycle.SettleLoanShape(s, p);
    SettleLoanFrame(s, p);
    Cash.SettleLoanPays(s, p);
    SettlingKeepsAccrual(s, p);
  }

  lemma SettlingKeepsAccrual(s: State, p: LoanProposal)
    requires Lending.SettleLoan(s, p).Success?
    ensures Lending.SettleLoan(s, p).value.accrual == s.accrual
  {
  }

  /** The same for a withdrawal. */
  ghost predicate WithdrawalParked(s: State, t: State, p: TreasuryProposal, voter: Address, support: bool) {
    var weight := VotingWeight(s, voter);
    var approved := Counted(p, support, weight).(status := ApprovedPendingDisbursement);
    && t.treasury == s.treasury.(voted := s.treasury.voted + {(p.id, voter)},
                                 proposals := s.treasury.proposals[p.id := approved])
    && t == s.(treasury := t.treasury, quota := t.quota,
               history := Record(s.history, TreasuryVoteCast(p.id, voter, support, weight)))
  }

  lemma ParkedWithdrawal(s: State, p: TreasuryProposal, voter: Address, support: bool)
    requires Tally(s, p, voter, support).Success?
    requires p.id in s.treasury.proposals && s.treasury.proposals[p.id] == p
    requires var t := Tally(s, p, voter, support).value;
             p.id in t.treasury.proposals && t.treasury.proposals[p.id].status == ApprovedPendingDisbursement
    ensures WithdrawalParked(s, Tally(s, p, voter, support).value, p, voter, support)
  {
    ParkedByPayout(BallotCast(s, p.id, voter, support, VotingWeight(s, voter)),
                   Counted(p, support, VotingWeight(s, voter)));
  }

  lemma ParkedByPayout(s: State, p: TreasuryProposal)
    requires Settle(s, p).Success? && p.status == Pending
    requires p.id in s.treasury.proposals && s.treasury.proposals[p.id].status != Executed
    requires Settle(s, p).value.treasury.proposals[p.id].status == ApprovedPendingDisbursement
    ensures var t := Settle(s, p).value;
            && t.treasury == s.treasury.(proposals := s.treasury.proposals[p.id := t.treasury.proposals[p.id]])
            && t.treasury.proposals[p.id] == p.(status := ApprovedPendingDisbursement)
            && t == s.(treasury := t.treasury, quota := t.quota)
  {
    Withdrawals.SettleShape(s, p);
    SettleFrame(s, p);
    Cash.SettlePays(s, p);
  }

  // ---- whole entrypoints ----

  lemma CastNeverTraps(s: State, voter: Address, id: Id, support: bool)
    requires s.staking.total >= 0
    ensures Lending.CastLoanVote(s, voter, id, support) != Failure(Trapped)
  {
  }

  lemma {:induction false} BatchNeverTraps(s: State, voter: Address, votes: seq<ProposalVote>)
    requires s.staking.total >= 0
    ensures Lending.CastLoanVotes(s, voter, votes) != Failure(Trapped)
    decreases |votes|
  {
    if votes != [] {
      var r := Lending.CastLoanVote(s, voter, votes[0].proposalId, votes[0].vote);
      CastNeverTraps(s, voter, votes[0].proposalId, votes[0].vote);
      if r.Success? {
        CastLoanVoteFrame(s, voter, votes[0].proposalId, votes[0].vote);
        BatchNeverTraps(r.value, voter, votes[1..]);
      }
    }
  }

  lemma TallyNeverTraps(s: State, p: TreasuryProposal, voter: Address, support: bool)
    requires s.staking.total >= 0
    ensures Tally(s, p, voter, support) != Failure(Trapped)
  {
  }

  lemma RevealNeverTraps(c: Crypto, s: State, voter: Address, id: Id, support: bool, salt: Bytes32)
    requires s.staking.total >= 0
    ensures RevealStep(c, s, voter, id, support, salt) != Failure(Trapped)
  {
    if id in s.treasury.proposals {
      TallyNeverTraps(CommitmentOpened(s, id, voter, support, salt), s.treasury.proposals[id], voter, support);
    }
  }

  lemma VoteNeverTraps(s: State, voter: Address, id: Id, support: bool)
    requires s.staking.total >= 0
    ensures VoteStep(s, voter, id, support) != Failure(Trapped)
  {
    if id in s.treasury.proposals {
      TallyNeverTraps(s, s.treasury.proposals[id], voter, support);
    }
  }

  /** Ballots and payouts of either kind. */
  predicate MayPayOut(a: Action) {
    LendAction(a) || a.VoteTreasury? || a.RevealVote? || a.ExecuteTreasury?
  }

  lemma LendingNeverTraps(s: State, a: Action)
    requires s.staking.total >= 0 && LendAction(a)
    ensures AttemptLend(s, a) != Failure(Trapped)
  {
    match a
    case VoteLoan(who, id, support) => CastNeverTraps(s, who, id, support);
    case VoteLoans(who, votes) => BatchNeverTraps(s, who, votes);
    case Disburse(id) =>
  }

  lemma PayoutNeverTraps(c: Crypto, s: State, a: Action)
    requires s.staking.total >= 0 && (a.VoteTreasury? || a.RevealVote? || a.ExecuteTreasury?)
    ensures AttemptTreasury(c, s, a) != Failure(Trapped)
  {
    match a
    case VoteTreasury(who, id, support) => VoteNeverTraps(s, who, id, support);
    case RevealVote(who, id, support, salt) => RevealNeverTraps(c, s, who, id, support, salt);
    case ExecuteTreasury(id) =>
  }

  lemma Dispatch(c: Crypto, s: State, a: Action)
    requires MayPayOut(a)
    ensures Attempt(c, s, a) == if LendAction(a) then AttemptLend(s, a) else AttemptTreasury(c, s, a)
  {
  }

  /** In every reachable state a ballot or a payout succeeds or is refused with an error of its own; none
      is brought down by a transfer. */
  lemma NothingTraps(c: Crypto, s: State, a: Action)
    requires Reachable(c, s) && MayPayOut(a)
    ensures Attempt(c, s, a) != Failure(Trapped)
  {
    ReachableInv(c, s);
    TotalNonNegative(c, s);
    Dispatch(c, s, a);
    if LendAction(a) {
      LendingNeverTraps(s, a);
    } else {
      PayoutNeverTraps(c, s, a);
    }
  }

  /** A ballot that leaves a loan approved but unpaid has swallowed an error, and has recorded the ballot and
      the approval only. */
  lemma SwallowedLoanClean(c: Crypto, s: State, voter: Address, id: Id, support: bool)
    requires Reachable(c, s) && Lending.CastLoanVote(s, voter, id, support).Success?
    ensures id in s.loans.proposals
    ensures var t := Lending.CastLoanVote(s, voter, id, support).value;
            id in t.loans.proposals && t.loans.proposals[id].status == ApprovedPendingDisbursement
            ==> LoanParked(s, t, voter, id, support)
  {
    var t := Lending.CastLoanVote(s, voter, id, support).value;
    ReachableInv(c, s);
    if id in t.loans.proposals && t.loans.proposals[id].status == ApprovedPendingDisbursement {
      ParkedLoan(s, voter, id, support);
    }
  }

  /** The same for an open or a revealed ballot on a withdrawal. */
  lemma SwallowedWithdrawalClean(c: Crypto, s: State, a: Action)
    requires Reachable(c, s) && (a.VoteTreasury? || a.RevealVote?) && AttemptTreasury(c, s, a).Success?
    ensures a.id in s.treasury.proposals
    ensures var t := AttemptTreasury(c, s, a).value;
            a.id in t.treasury.proposals && t.treasury.proposals[a.id].status == ApprovedPendingDisbursement
            ==> WithdrawalParked(TalliedIn(s, a), t, s.treasury.proposals[a.id], a.who, a.support)
  {
    ReachableInv(c, s);
    BallotParks(c, s, a, AttemptTreasury(c, s, a).value);
  }

  /** The state a ballot is tallied in: a reveal has consumed its commitment. */
  ghost function TalliedIn(s: State, a: Action): State
    requires a.VoteTreasury? || a.RevealVote?
  {
    if a.VoteTreasury? then s else CommitmentOpened(s, a.id, a.who, a.support, a.salt)
  }

  lemma BallotParks(c: Crypto, s: State, a: Action, t: State)
    requires a.VoteTreasury? || a.RevealVote?
    requires Withdrawals.WithdrawalInv(c, s) && AttemptTreasury(c, s, a) == Success(t)
    ensures a.id in s.treasury.proposals
    ensures a.id in t.treasury.proposals && t.treasury.proposals[a.id].status == ApprovedPendingDisbursement
            ==> WithdrawalParked(TalliedIn(s, a), t, s.treasury.proposals[a.id], a.who, a.support)
  {
    if a.VoteTreasury? {
      Withdrawals.VoteIsTally(s, a.who, a.id, a.support);
    } else {
      RevealIsTally(c, s, a.who, a.id, a.support, a.salt);
    }
    Withdrawals.OwnId(s.treasury, s.history, s.now, a.id);
    if a.id in t.treasury.proposals && t.treasury.proposals[a.id].status == ApprovedPendingDisbursement {
      ParkedWithdrawal(TalliedIn(s, a), s.treasury.proposals[a.id], a.who, a.support);
    }
  }
}
