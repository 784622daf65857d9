/** What holds in every state the contract can reach, and over every run from such a state. */
module Guarantees {
  import opened Types
  import opened Arithmetic
  import opened History
  import opened Storage
  import opened Sums
  import opened TreasuryOps
  import opened System
  import opened Reachability
  import opened Books
  import Membership
  import Contributions
  import Migration
  import Lifecycle
  import Credit
  import Ballots
  import Withdrawals
  import Quota
  import InnerFailures
  import Interest
  import Exits
  import Delegation
  import Fields
  import Frames
  import ProposalLaws
  import StakeLock
  import Lending
  import LoanTerms

  // ---- what the laws ask for ----

  /** A reachable state meets every hypothesis of the laws. */
  lemma LawsApply(c: Crypto, t: State)
    requires Reachable(c, t)
    ensures Lifecycle.LifeInv(t) && ProposalLaws.IdsBounded(t) && NoDuplicates(t.roster.list)
    ensures t.staking.total >= 0 && t.accrual.remainder >= 0 && t.now <= Fields.LAST_SECOND
    ensures forall id :: id in t.treasury.proposals ==> t.treasury.proposals[id].id == id
    ensures forall who :: Fields.Enlisted(t, who) ==> t.roster.active > 0
  {
    ReachableInv(c, t);
    InnerFailures.TotalNonNegative(c, t);
    ReachableTime(c, t);
    BooksMeetLaws(t);
    LoanIds(t);
    WithdrawalIds(c, t);
  }

  lemma BooksMeetLaws(t: State)
    requires BooksInv(t)
    ensures NoDuplicates(t.roster.list) && t.accrual.remainder >= 0
    ensures forall who :: Fields.Enlisted(t, who) ==> t.roster.active > 0
  {
    forall who | Fields.Enlisted(t, who)
      ensures t.roster.active > 0
    {
      assert who in ActiveSet(t.roster.members);
    }
  }

  lemma LoanIds(t: State)
    requires Lifecycle.LifeInv(t)
    ensures forall id :: id in t.loans.proposals ==> id < t.loans.next
  {
    forall id | id in t.loans.proposals
      ensures id < t.loans.next
    {
      assert Lifecycle.ProposalOk(t.loans, t.roster.members.Keys, t.history.disbursals, id);
    }
  }

  lemma WithdrawalIds(c: Crypto, t: State)
    requires Withdrawals.WithdrawalInv(c, t)
    ensures forall id :: id in t.treasury.proposals ==> t.treasury.proposals[id].id == id && id < t.treasury.next
  {
  }

  lemma StepTimeBound(c: Crypto, s: State, a: Action)
    requires s.now <= U64_MAX
    ensures Step(c, s, a).now <= U64_MAX
  {
    if !a.Tick? {
      NoTimePasses(c, s, a);
    }
  }

  lemma NoTimePasses(c: Crypto, s: State, a: Action)
    requires !a.Tick?
    ensures Step(c, s, a).now == s.now
  {
    if MemberAction(a) {
      Frames.MemberFrame(c, s, a);
    } else if ProposalAction(a) {
      Frames.ProposalFrame(c, s, a);
    } else if DebtAction(a) {
      Frames.DebtFrame(c, s, a);
    } else if TreasuryAction(a) {
      Frames.TreasuryFrame(c, s, a);
    }
  }

  lemma {:induction false} RunTimeBound(c: Crypto, s: State, actions: seq<Action>)
    requires s.now <= U64_MAX
    ensures Run(c, s, actions).now <= U64_MAX
    decreases |actions|
  {
    if actions != [] {
      StepTimeBound(c, s, actions[0]);
      RunTimeBound(c, Step(c, s, actions[0]), actions[1..]);
    }
  }

  lemma ReachableTime(c: Crypto, t: State)
    requires Reachable(c, t)
    ensures t.now <= U64_MAX
  {
    var s, actions :| Initial(s) && t == Run(c, s, actions);
    RunTimeBound(c, s, actions);
  }

  // ---- money ----

  /** The accumulator refines the eager ledger: for every active member, accumulator minus snapshot is
      exactly the balance that crediting everyone on every repayment would show. */
  lemma AccumulatorRefinesLedger(c: Crypto, t: State)
    requires Reachable(c, t)
    ensures Pendings(t.roster.members, t.accrual) == t.history.ledger.credit
    ensures forall a :: a in ActiveSet(t.roster.members) ==>
              Membership.PendingYield(t.accrual, a) == t.accrual.accumulator - SnapshotOf(t.accrual, a)
  {
    ReachableInv(c, t);
    PendingsAreCredits(t.roster.members, t.accrual, t.history.ledger);
  }

  /** Interest is conserved: every unit ever accepted is in the remainder, pending for an active member,
      claimed, paid at an exit, or forfeited in a default. */
  lemma InterestConserved(c: Crypto, t: State)
    requires Reachable(c, t)
    ensures var l := t.history.ledger;
            l.accepted == t.accrual.remainder + MapSum(Pendings(t.roster.members, t.accrual))
                          + l.claimed + l.paidAtExit + l.forfeited
  {
    ReachableInv(c, t);
    AccumulatorRefinesLedger(c, t);
  }

  /** What members can claim never exceeds what was accepted, and the yield that base-token loans handed
      out is what was accepted, or arrived while nobody was active to share it. */
  lemma YieldTracesLoans(c: Crypto, t: State)
    requires Reachable(c, t)
    ensures MapSum(Pendings(t.roster.members, t.accrual)) <= t.history.ledger.accepted
    ensures MapSum(Interest.HandedBy(t.history.loanTraces)) == t.history.ledger.accepted + t.history.ledger.unshared
    ensures forall id :: id in t.history.loanTraces && LoanAsset(t, id) != t.config.token
              ==> t.history.loanTraces[id].handed == 0
  {
    ReachableInv(c, t);
    InterestConserved(c, t);
    forall id | id in t.history.loanTraces && LoanAsset(t, id) != t.config.token
      ensures t.history.loanTraces[id].handed == 0
    {
      assert Credit.LoanOk(t.loans.loans[id], t.history.loanTraces[id], LoanAsset(t, id) == t.config.token);
    }
  }

  /** Every cached total is the sum it stands for; the cached contributions fall short of the scan by
      exactly what defaults slashed from borrowers who had left. */
  lemma CachedTotalsExact(c: Crypto, t: State)
    requires Reachable(c, t)
    ensures t.staking.total == MapSum(t.staking.stakes)
    ensures t.roster.active == |ActiveSet(t.roster.members)|
    ensures NoDuplicates(t.roster.list) && t.roster.total == |t.roster.list| >= t.roster.active
    ensures forall a :: a in t.roster.list <==> a in t.roster.members
    ensures Membership.TotalActiveContributions(t.roster.list, t.roster.members)
            == t.roster.contributions + t.history.slashedInactive
  {
    ReachableInv(c, t);
    Contributions.Drift(t);
    Migration.ListedOnce(t.roster.list);
    assert ActiveSet(t.roster.members) <= Contributions.Listed(t.roster.list);
    SubsetSize(ActiveSet(t.roster.members), Contributions.Listed(t.roster.list));
  }

  /** Exit shares: together within the treasury exactly when the recorded slashes on leavers, at the
      treasury's worth, do not outweigh what the shares keep back. */
  lemma SharesCovered(c: Crypto, t: State)
    requires Reachable(c, t)
    ensures MapSum(Exits.Shares(t)) <= Max(Exits.Treasury(t), 0)
            <==> (Exits.Treasury(t) > 0 && t.roster.contributions > 0
                  ==> Exits.Treasury(t) * t.history.slashedInactive <= MapSum(Exits.Kept(t)))
  {
    ReachableInv(c, t);
    Exits.SharesCoveredIff(t);
  }

  // ---- loans ----

  /** A member's counters are those of the loan table, through exits and rejoins. */
  lemma CountersMatchLoans(c: Crypto, t: State, who: Address)
    requires Reachable(c, t) && who in t.roster.members
    ensures var m := t.roster.members[who];
            && m.activeLoans == |Credit.LoansOf(t.loans.loans, who, Active)|
            && m.repaidLoans == |Credit.LoansOf(t.loans.loans, who, Repaid)|
            && m.totalLoans == m.activeLoans + m.repaidLoans + |Credit.LoansOf(t.loans.loans, who, Defaulted)|
            && (m.hasActiveLoan ==> m.activeLoans >= 1)
  {
    ReachableInv(c, t);
    assert Credit.CountersOk(t.roster.members[who], t.loans.loans, who);
  }

  /** Interest first: a base-token loan has handed out exactly the interest its payments have covered,
      whatever their sizes and dates; the loan is repaid exactly when nothing is owed. */
  lemma RepaymentTelescopes(c: Crypto, t: State, id: Id)
    requires Reachable(c, t) && id in t.loans.loans
    ensures id in t.history.loanTraces
    ensures
      var loan, trace := t.loans.loans[id], t.history.loanTraces[id];
      && loan.totalRepayment - loan.principal == trace.quoted >= 0
      && trace.handed == (if LoanAsset(t, id) == t.config.token then Min(loan.amountRepaid, trace.quoted) else 0)
      && (loan.status == Repaid <==> loan.amountRepaid == loan.totalRepayment)
      && (loan.status != Repaid ==> loan.amountRepaid < loan.totalRepayment)
  {
    ReachableInv(c, t);
    assert Credit.LoanOk(t.loans.loans[id], t.history.loanTraces[id], LoanAsset(t, id) == t.config.token);
  }

  /** Over any run, a loan's interest stays what it was, its debt and payments only grow, and once
      repaid or defaulted it never changes. */
  lemma LoansOnlyMoveForward(c: Crypto, s: State, actions: seq<Action>, id: Id)
    requires Reachable(c, s) && id in s.loans.loans
    ensures id in Run(c, s, actions).loans.loans
    ensures Lifecycle.LoanEvolves(s.loans.loans[id], Run(c, s, actions).loans.loans[id])
  {
    ReachableInv(c, s);
    Lifecycle.RunLife(c, s, actions);
  }

  /** A proposal's phase and status agree, its loan exists exactly when it is approved, and it has been
      paid out once if approved and never otherwise. */
  lemma LoanProposalsConsistent(c: Crypto, t: State, id: Id)
    requires Reachable(c, t) && id in t.loans.proposals
    ensures Lifecycle.PhaseMatches(t.loans.proposals[id])
    ensures id in t.loans.loans <==> t.loans.proposals[id].status == Approved
    ensures Listed(t.history.disbursals, id) ==
            if t.loans.proposals[id].status == Approved
            then [Payment(t.loans.proposals[id].amount, t.loans.proposals[id].borrower)] else []
  {
    ReachableInv(c, t);
    assert Lifecycle.ProposalOk(t.loans, t.roster.members.Keys, t.history.disbursals, id);
  }

  /** Over any run a proposal keeps its borrower and deadlines, its status and phase move only forward,
      and what it asks for is fixed once editing has ended by the clock, whatever phase its record shows. */
  lemma LoanProposalsOnlyMoveForward(c: Crypto, s: State, actions: seq<Action>, id: Id)
    requires Reachable(c, s) && id in s.loans.proposals
    ensures id in Run(c, s, actions).loans.proposals
    ensures var p, q := s.loans.proposals[id], Run(c, s, actions).loans.proposals[id];
            && Lifecycle.Evolves(p, q)
            && (s.now >= p.editingPeriodEnd ==> LoanTerms.SameTerms(p, q))
  {
    ReachableInv(c, s);
    Lifecycle.RunLife(c, s, actions);
    LoanTerms.RunTerms(c, s, actions);
  }

  /** A disbursement or payout that refuses has written nothing, and one that passes its checks cannot trap:
      in a reachable state, and in every state inside a ballot cast there, since a ballot moves no stake. */
  lemma InnerFailuresAreClean(c: Crypto, s: State, t: State, p: LoanProposal, w: TreasuryProposal)
    requires Reachable(c, s) && t.staking == s.staking && p.borrower in t.roster.members
    ensures Lending.ApproveAndDisburse(t, p).Refused? ==> Lending.ApproveAndDisburse(t, p).state == t
    ensures Execute(t, w).Refused? ==> Execute(t, w).state == t
    ensures !Lending.ApproveAndDisburse(t, p).HostTrap? && !Execute(t, w).HostTrap?
  {
    ReachableInv(c, s);
    InnerFailures.TotalNonNegative(c, s);
    Lifecycle.RefusedWritesNothing(t, p);
    Withdrawals.ExecuteShape(t, w);
    InnerFailures.PayoutsCovered(t, p, w);
  }

  // ---- ballots ----

  /** A loan's tally is that of distinct recorded voters, at the weights they had; the borrower is never
      one of them. */
  lemma LoanTalliesExact(c: Crypto, t: State, id: Id)
    requires Reachable(c, t) && id in t.loans.proposals
    ensures
      var p, bs := t.loans.proposals[id], Listed(t.history.loanBallots, id);
      var voters := Ballots.VotedFor(t.loans.voted, id);
      && p.votesCast == |voters| == |bs| && Ballots.VoterSet(bs) == voters
      && p.forVotes == Ballots.WeightFor(bs, true) && p.againstVotes == Ballots.WeightFor(bs, false)
      && p.borrower !in voters
  {
    ReachableInv(c, t);
    assert Ballots.LoanTallyOk(t.loans.proposals[id], Listed(t.history.loanBallots, id),
                               Ballots.VotedFor(t.loans.voted, id));
  }

  /** The same for withdrawals, open and private alike; and a withdrawal has paid its destination its
      amount once if executed, and never otherwise. */
  lemma WithdrawalsExact(c: Crypto, t: State, id: Id)
    requires Reachable(c, t) && id in t.treasury.proposals
    ensures
      var p, bs := t.treasury.proposals[id], Listed(t.history.treasuryBallots, id);
      var voters := Ballots.VotedFor(t.treasury.voted, id);
      && p.votesCast == |voters| == |bs| && Ballots.VoterSet(bs) == voters
      && p.forVotes == Ballots.WeightFor(bs, true) && p.againstVotes == Ballots.WeightFor(bs, false)
      && Listed(t.history.payouts, id) == if p.status == Executed then [Payment(p.amount, p.destination)] else []
  {
    ReachableInv(c, t);
    assert Withdrawals.WithdrawalOk(t.treasury.proposals[id], id, Listed(t.history.treasuryBallots, id),
                                    Ballots.VotedFor(t.treasury.voted, id), Listed(t.history.payouts, id));
  }

  lemma WithdrawalsOnlyMoveForward(c: Crypto, s: State, actions: seq<Action>, id: Id)
    requires Reachable(c, s) && id in s.treasury.proposals
    ensures var t := Run(c, s, actions);
            && id in t.treasury.proposals
            && Withdrawals.SameRequest(s.treasury.proposals[id], t.treasury.proposals[id])
            && Withdrawals.WithdrawalForward(s.treasury.proposals[id].status, t.treasury.proposals[id].status)
  {
    ReachableInv(c, s);
    Withdrawals.RunWithdrawal(c, s, actions);
  }

  /** After a counted ballot on a withdrawal, open or revealed, it is approved exactly when its weight
      reaches the threshold share of the active members, rejected exactly when full weight from all
      remaining members could not lift it there, and decided once as many have voted as are active. */
  lemma WithdrawalVoteDecides(s: State, p: TreasuryProposal, voter: Address, support: bool)
    requires Tally(s, p, voter, support).Success?
    ensures
      var after := Tally(s, p, voter, support).value.treasury.proposals;
      p.id in after && WithdrawalDecision(after[p.id], s.roster.active)
  {
    Withdrawals.TallyShape(s, p, voter, support);
    var q := Tally(s, p, voter, support).value.treasury.proposals[p.id];
    RequiredVotesExact(q.forVotes, s.roster.active, q.treasuryThreshold);
  }

  ghost predicate WithdrawalDecision(p: TreasuryProposal, active: nat) {
    && (p.status == Executed || p.status == ApprovedPendingDisbursement
        <==> p.forVotes * BASIS_POINTS >= active * p.treasuryThreshold)
    && (p.status == Rejected
        <==> p.forVotes + MaxRemaining(active, p.votesCast) < RequiredVotes(active, p.treasuryThreshold))
    && (p.votesCast >= active ==> p.status != Pending)
  }

  /** Commit and reveal: while the commit window is open nothing is counted; every counted vote opens a
      commitment its voter made inside the window, later but within the second one, and counts with the
      support that was opened; and no voter is ever both committed and counted. */
  lemma CommitRevealDiscipline(c: Crypto, t: State, id: Id)
    requires Reachable(c, t) && id in t.treasury.proposals && t.treasury.proposals[id].isPrivate
    ensures
      var p, bs := t.treasury.proposals[id], Listed(t.history.treasuryBallots, id);
      var voters := Ballots.VotedFor(t.treasury.voted, id);
      && (t.now <= Withdrawals.CommitEnd(p) ==> p.votesCast == 0 && p.forVotes == 0 && p.againstVotes == 0)
      && (forall v :: v in voters ==> Withdrawals.OpenedOk(c, p, (id, v), t.history))
      && Withdrawals.SupportMatches(bs, id, t.history.openings)
      && (forall v :: (id, v) in t.treasury.commits ==> (id, v) !in t.treasury.voted)
  {
    ReachableInv(c, t);
    WithdrawalsExact(c, t, id);
    var p, bs := t.treasury.proposals[id], Listed(t.history.treasuryBallots, id);
    var voters := Ballots.VotedFor(t.treasury.voted, id);
    forall v | v in voters
      ensures Withdrawals.OpenedOk(c, p, (id, v), t.history)
    {
      assert Withdrawals.VotedOk(c, t.treasury, (id, v), t.history);
    }
    forall v | (id, v) in t.treasury.commits
      ensures (id, v) !in t.treasury.voted
    {
      assert Withdrawals.CommitOk(t.treasury, (id, v), t.history);
    }
  }

  // ---- members ----

  /** No member ever has more than three open proposals, and the cached count never falls below the
      live one. */
  lemma QuotaHolds(c: Crypto, t: State, who: Address)
    requires Reachable(c, t)
    ensures ProposalLaws.OpenOf(t, who) <= 3 && ProposalLaws.OpenOf(t, who) <= Quota.CacheOf(t.quota, who)
  {
    ReachableInv(c, t);
    LawsApply(c, t);
    ProposalLaws.OpenCounted(t, who);
  }

  /** Delegation creates no votes: over the member list, weights sum to at most the members' own votes,
      and to exactly those when no delegate has delegated too. */
  lemma WeightConserved(c: Crypto, t: State)
    requires Reachable(c, t)
    ensures
      var total := Delegation.TotalWeight(t.roster.list, t.roster.list, t.delegations, t.staking.stakes);
      var own := Delegation.TotalOwn(t.roster.list, t.staking.stakes);
      && total <= own <= 6 * t.roster.total
      && (total == own <==> forall m :: m in t.delegations ==> t.delegations[m] !in t.delegations)
  {
    ReachableInv(c, t);
    Delegation.RosterWeight(t);
  }

  /** Stake behind an open ballot, an unopened commitment or an own request cannot be withdrawn by a
      member who does not leave, however the run goes on. */
  lemma StakeStaysBehindBallots(c: Crypto, s: State, actions: seq<Action>, m: Address, tie: StakeLock.Tie)
    requires Reachable(c, s) && StakeLock.Tied(s, m, tie) && Exit(m) !in actions
    ensures StakeLock.StillOpen(Run(c, s, actions), tie) ==>
              StakeOf(Run(c, s, actions).staking.stakes, m) >= StakeOf(s.staking.stakes, m)
  {
    ReachableInv(c, s);
    if StakeLock.StillOpen(Run(c, s, actions), tie) {
      StakeLock.StakeStaysLocked(c, s, actions, m, tie);
    }
  }
}
