/** The money books: cached totals against the sums they stand for, and the O(1) yield
    accumulator against the eager ledger that credits every member on every repayment. */
module Books {
  import opened Types
  import opened Arithmetic
  import opened History
  import opened Storage
  import opened Sums
  import opened TreasuryOps
  import opened System
  import opened Frames
  import Membership
  import Voting
  import StakingOps
  import Lending

  // ---- the invariants ----

  ghost function ActiveSet(ms: map<Address, Member>): set<Address> {
    set a | a in ms && ms[a].status == ActiveMember
  }

  ghost function ActiveContributions(ms: map<Address, Member>): map<Address, int> {
    map a | a in ms && ms[a].status == ActiveMember :: ms[a].contribution
  }

  ghost predicate NoDuplicates(list: seq<Address>) {
    forall i, j :: 0 <= i < j < |list| ==> list[i] != list[j]
  }

  /** The member list is duplicate-free and lists exactly the recorded members; the cached counts
      are its length and the number of active records. */
  ghost predicate RosterInv(r: Roster) {
    && NoDuplicates(r.list)
    && (forall a :: a in r.list <==> a in r.members)
    && r.total == |r.list|
    && r.active == |ActiveSet(r.members)|
    && (forall a :: a in r.members ==> r.members[a].address == a && r.members[a].contribution >= 0)
  }

  /** The cached contributions differ from the active members' sum by exactly what defaults have
      slashed from borrowers who had already left. */
  ghost predicate ContributionsInv(r: Roster, slashedInactive: int) {
    r.contributions + slashedInactive == MapSum(ActiveContributions(r.members))
  }

  ghost predicate StakingInv(k: Staking, ms: map<Address, Member>) {
    && k.total == MapSum(k.stakes)
    && (forall a :: a in k.stakes ==> k.stakes[a] >= 0 && a in ms)
  }

  /** The accumulator holds the eager ledger, and the ledger loses nothing it accepted. */
  ghost predicate YieldInv(y: Accrual, active: set<Address>, l: YieldLedger) {
    && l.credit.Keys == active
    && (forall a :: a in l.credit ==> l.credit[a] == y.accumulator - SnapshotOf(y, a) >= 0)
    && l.remainder == y.remainder >= 0
    && l.accepted == l.remainder + MapSum(l.credit) + l.claimed + l.paidAtExit + l.forfeited
    && l.claimed >= 0 && l.paidAtExit >= 0 && l.forfeited >= 0
  }

  ghost predicate BooksInv(s: State) {
    && s.config.fee > 0
    && RosterInv(s.roster)
    && ContributionsInv(s.roster, s.history.slashedInactive)
    && StakingInv(s.staking, s.roster.members)
    && YieldInv(s.accrual, ActiveSet(s.roster.members), s.history.ledger)
  }

  lemma InitialBooks(s: State)
    requires Initial(s)
    ensures BooksInv(s)
  {
    assert ActiveContributions(s.roster.members) == map[];
    assert ActiveSet(s.roster.members) == {};
  }

  // ---- the yield ledger, event by event ----

  lemma YieldJoin(y: Accrual, active: set<Address>, l: YieldLedger, who: Address)
    requires YieldInv(y, active, l) && who !in active
    ensures YieldInv(y.(snapshots := y.snapshots[who := y.accumulator]), active + {who}, RecordYield(l, Joined(who)))
  {
    MapSumUpdate(l.credit, who, 0);
  }

  lemma YieldExit(y: Accrual, active: set<Address>, l: YieldLedger, who: Address, share: int)
    requires YieldInv(y, active, l) && who in active
    ensures Membership.PendingYield(y, who) == l.credit[who]
    ensures YieldInv(y.(snapshots := y.snapshots[who := y.accumulator]), active - {who},
                     RecordYield(l, Exited(who, share, Membership.PendingYield(y, who))))
  {
    MapSumRemove(l.credit, who);
  }

  lemma YieldClaim(y: Accrual, active: set<Address>, l: YieldLedger, who: Address)
    requires YieldInv(y, active, l) && who in active
    ensures Membership.PendingYield(y, who) == l.credit[who]
    ensures YieldInv(y.(snapshots := y.snapshots[who := y.accumulator]), active,
                     RecordYield(l, Claimed(who, Membership.PendingYield(y, who))))
  {
    MapSumUpdate(l.credit, who, 0);
  }

  lemma YieldDefault(y: Accrual, active: set<Address>, l: YieldLedger, who: Address, penalty: int)
    requires YieldInv(y, active, l)
    ensures YieldInv(y.(snapshots := y.snapshots[who := y.accumulator]), active,
                     RecordYield(l, LoanDefaulted(who, penalty)))
  {
    if who in active {
      MapSumUpdate(l.credit, who, 0);
    }
  }

  /** Bumping one number by the floored share is crediting every member by it. */
  lemma YieldDistribute(y: Accrual, active: set<Address>, n: nat, l: YieldLedger, interest: int)
    requires YieldInv(y, active, l) && interest > 0 && n == |active| && n > 0
    ensures YieldInv(Lending.Shared(y, interest, n), active, RecordYield(l, InterestPaid(interest)))
  {
    var total := interest + y.remainder;
    var l' := CreditAll(l, interest);
    assert |l.credit.Keys| == |l.credit|;
    assert l'.credit.Keys == l.credit.Keys;
    MapSumShift(l.credit, l'.credit, total / n);
    DivideEvenly(total, n);
  }

  lemma DivideEvenly(total: int, n: int)
    requires total >= 0 && n > 0
    ensures total / n >= 0 && 0 <= total % n && total == total / n * n + total % n
  {
  }

  /** What each active member could claim now, by the O(1) formula. */
  ghost function Pendings(ms: map<Address, Member>, y: Accrual): map<Address, int> {
    map a | a in ms && ms[a].status == ActiveMember :: Membership.PendingYield(y, a)
  }

  lemma PendingsAreCredits(ms: map<Address, Member>, y: Accrual, l: YieldLedger)
    requires YieldInv(y, ActiveSet(ms), l)
    ensures Pendings(ms, y) == l.credit
    ensures forall a :: a in ActiveSet(ms) ==> Membership.PendingYield(y, a) == y.accumulator - SnapshotOf(y, a)
  {
    assert Pendings(ms, y).Keys == ActiveSet(ms);
  }

  // ---- roster changes ----

  /** Rewriting a record without touching status, contribution or address. */
  lemma RecordKept(r: Roster, who: Address, m: Member)
    requires RosterInv(r) && who in r.members
    requires m.address == who && m.status == r.members[who].status && m.contribution == r.members[who].contribution
    ensures var ms := r.members[who := m];
            && ActiveSet(ms) == ActiveSet(r.members)
            && ActiveContributions(ms) == ActiveContributions(r.members)
            && RosterInv(r.(members := ms))
  {
  }

  lemma MemberJoins(r: Roster, who: Address, now: nat, fee: nat, slashed: int)
    requires RosterInv(r) && ContributionsInv(r, slashed) && !IsActive(r, who)
    ensures var n := Membership.Enrolled(r, who, now, fee);
            && RosterInv(n) && ContributionsInv(n, slashed)
            && ActiveSet(n.members) == ActiveSet(r.members) + {who}
            && who !in ActiveSet(r.members)
  {
    Activated(r.members, who, Membership.NewRecord(r, who, now, fee));
    MapSumUpdate(ActiveContributions(r.members), who, fee);
    RosterGrows(r, who, now, fee);
  }

  lemma RosterGrows(r: Roster, who: Address, now: nat, fee: nat)
    requires RosterInv(r) && !IsActive(r, who)
    ensures RosterInv(Membership.Enrolled(r, who, now, fee))
  {
    var n := Membership.Enrolled(r, who, now, fee);
    assert n.active == |ActiveSet(n.members)| by {
      Activated(r.members, who, Membership.NewRecord(r, who, now, fee));
    }
    assert NoDuplicates(n.list) && (forall a :: a in n.list <==> a in n.members) by {
      ListGrows(r.list, r.members.Keys, who);
    }
    assert forall a :: a in n.members ==> n.members[a].address == a && n.members[a].contribution >= 0;
  }

  lemma ListGrows(list: seq<Address>, members: set<Address>, who: Address)
    requires NoDuplicates(list) && forall a :: a in list <==> a in members
    ensures var grown := if who in members then list else list + [who];
            NoDuplicates(grown) && forall a :: a in grown <==> a in members || a == who
  {
  }

  lemma Activated(ms: map<Address, Member>, who: Address, m: Member)
    requires who in ms ==> ms[who].status != ActiveMember
    requires m.status == ActiveMember
    ensures ActiveSet(ms[who := m]) == ActiveSet(ms) + {who} && who !in ActiveSet(ms)
    ensures ActiveContributions(ms[who := m]) == ActiveContributions(ms)[who := m.contribution]
  {
  }

  lemma MemberLeaves(r: Roster, who: Address, slashed: int)
    requires RosterInv(r) && ContributionsInv(r, slashed) && IsActive(r, who)
    ensures r.active > 0
    ensures var n := Membership.Departed(r, who);
            && RosterInv(n) && ContributionsInv(n, slashed)
            && ActiveSet(n.members) == ActiveSet(r.members) - {who}
            && who in ActiveSet(r.members)
  {
    Deactivated(r.members, who, r.members[who].(status := Inactive, shareBalance := 0));
    MapSumRemove(ActiveContributions(r.members), who);
  }

  lemma Deactivated(ms: map<Address, Member>, who: Address, m: Member)
    requires who in ms && ms[who].status == ActiveMember
    requires m.status != ActiveMember
    ensures ActiveSet(ms[who := m]) == ActiveSet(ms) - {who} && who in ActiveSet(ms)
    ensures ActiveContributions(ms[who := m]) == ActiveContributions(ms) - {who}
  {
  }

  lemma DefaultPenaltyBounds(contribution: int, bps: nat)
    requires contribution >= 0
    ensures 0 <= Lending.DefaultPenalty(contribution, bps) <= contribution
  {
    if contribution > 0 && bps > 0 {
      MulNonNegative(contribution, bps);
    }
  }

  lemma MemberSlashed(r: Roster, who: Address, penalty: int, slashed: int)
    requires RosterInv(r) && ContributionsInv(r, slashed) && who in r.members
    requires 0 <= penalty <= r.members[who].contribution
    ensures var n := r.(members := r.members[who := Lending.Slashed(r.members[who], penalty)],
                        contributions := r.contributions - penalty);
            && RosterInv(n)
            && ContributionsInv(n, slashed + if IsActive(r, who) then 0 else penalty)
            && ActiveSet(n.members) == ActiveSet(r.members)
  {
    var m := Lending.Slashed(r.members[who], penalty);
    Recontributed(r.members, who, m);
    SlashedSum(r.members, who, m);
  }

  lemma SlashedSum(ms: map<Address, Member>, who: Address, m: Member)
    requires who in ms && m.status == ms[who].status
    ensures MapSum(ActiveContributions(ms[who := m])) ==
            MapSum(ActiveContributions(ms))
            + if m.status == ActiveMember then m.contribution - ms[who].contribution else 0
  {
    Recontributed(ms, who, m);
    if m.status == ActiveMember {
      MapSumUpdate(ActiveContributions(ms), who, m.contribution);
    }
  }

  lemma Recontributed(ms: map<Address, Member>, who: Address, m: Member)
    requires who in ms && m.status == ms[who].status
    ensures ActiveSet(ms[who := m]) == ActiveSet(ms)
    ensures ActiveContributions(ms[who := m]) ==
            if m.status == ActiveMember then ActiveContributions(ms)[who := m.contribution] else ActiveContributions(ms)
  {
  }

  // ---- stake changes ----

  lemma StakeSet(k: Staking, ms: map<Address, Member>, who: Address, amount: int)
    requires StakingInv(k, ms) && amount >= 0 && who in ms
    ensures StakingInv(k.(stakes := k.stakes[who := amount], total := k.total + amount - StakeOf(k.stakes, who)), ms)
  {
    MapSumUpdate(k.stakes, who, amount);
  }

  lemma StakingKept(k: Staking, ms: map<Address, Member>, ns: map<Address, Member>)
    requires StakingInv(k, ms) && ms.Keys <= ns.Keys
    ensures StakingInv(k, ns)
  {
  }

  // ---- every step keeps the books ----

  lemma RegisterBooks(s: State, who: Address)
    requires BooksInv(s) && Membership.RegisterStep(s, who).Success?
    ensures BooksInv(Membership.RegisterStep(s, who).value)
  {
    RegisterShape(s, who);
    JoinedBooks(s, who, Membership.RegisterStep(s, who).value);
  }

  /** What a registration does to the books. */
  ghost predicate JoinedTo(s: State, who: Address, t: State) {
    && t.config == s.config && t.staking == s.staking
    && t.roster == Membership.Enrolled(s.roster, who, s.now, s.config.fee)
    && t.accrual == s.accrual.(snapshots := s.accrual.snapshots[who := s.accrual.accumulator])
    && t.history.ledger == RecordYield(s.history.ledger, Joined(who))
    && t.history.slashedInactive == s.history.slashedInactive
  }

  lemma RegisterShape(s: State, who: Address)
    requires Membership.RegisterStep(s, who).Success?
    ensures !IsActive(s.roster, who) && JoinedTo(s, who, Membership.RegisterStep(s, who).value)
  {
  }

  lemma JoinedBooks(s: State, who: Address, t: State)
    requires BooksInv(s) && !IsActive(s.roster, who) && JoinedTo(s, who, t)
    ensures BooksInv(t)
  {
    MemberJoins(s.roster, who, s.now, s.config.fee, s.history.slashedInactive);
    YieldJoin(s.accrual, ActiveSet(s.roster.members), s.history.ledger, who);
    StakingKept(s.staking, s.roster.members, t.roster.members);
  }

  lemma ExitBooks(s: State, who: Address)
    requires BooksInv(s) && Membership.ExitStep(s, who).Success?
    ensures BooksInv(Membership.ExitStep(s, who).value)
  {
    var t := Membership.ExitStep(s, who).value;
    assert t.roster == Membership.Departed(s.roster, who);
    assert t.staking == Membership.Unstaked(s.staking, who);
    assert t.config == s.config && t.history.slashedInactive == s.history.slashedInactive;
    ExitParts(s.roster, s.staking, s.accrual, s.history, who, Membership.ExitShare(s, who));
  }

  lemma ExitParts(r: Roster, k: Staking, y: Accrual, h: History, who: Address, share: int)
    requires RosterInv(r) && ContributionsInv(r, h.slashedInactive) && StakingInv(k, r.members)
    requires YieldInv(y, ActiveSet(r.members), h.ledger)
    requires IsActive(r, who) && r.active > 0
    ensures var n := Membership.Departed(r, who);
            && RosterInv(n) && ContributionsInv(n, h.slashedInactive)
            && StakingInv(Membership.Unstaked(k, who), n.members)
            && YieldInv(y.(snapshots := y.snapshots[who := y.accumulator]), ActiveSet(n.members),
                        RecordYield(h.ledger, Exited(who, share, Membership.PendingYield(y, who))))
  {
    MemberLeaves(r, who, h.slashedInactive);
    UnstakedKept(k, r.members, who);
    StakingKept(Membership.Unstaked(k, who), r.members, Membership.Departed(r, who).members);
    YieldExit(y, ActiveSet(r.members), h.ledger, who, share);
  }

  lemma UnstakedKept(k: Staking, ms: map<Address, Member>, who: Address)
    requires StakingInv(k, ms) && who in ms
    ensures StakingInv(Membership.Unstaked(k, who), ms)
  {
    StakeSet(k, ms, who, 0);
  }

  lemma ClaimBooks(s: State, who: Address)
    requires BooksInv(s) && Membership.ClaimStep(s, who).Success?
    ensures BooksInv(Membership.ClaimStep(s, who).value)
  {
    ClaimShape(s, who);
    ClaimedBooks(s, who, Membership.ClaimStep(s, who).value);
  }

  ghost predicate ClaimedTo(s: State, who: Address, t: State) {
    && t.config == s.config && t.staking == s.staking && t.roster == s.roster
    && t.accrual == s.accrual.(snapshots := s.accrual.snapshots[who := s.accrual.accumulator])
    && t.history.ledger == RecordYield(s.history.ledger, Claimed(who, Membership.PendingYield(s.accrual, who)))
    && t.history.slashedInactive == s.history.slashedInactive
  }

  lemma ClaimShape(s: State, who: Address)
    requires Membership.ClaimStep(s, who).Success?
    ensures IsActive(s.roster, who) && ClaimedTo(s, who, Membership.ClaimStep(s, who).value)
  {
  }

  lemma ClaimedBooks(s: State, who: Address, t: State)
    requires BooksInv(s) && IsActive(s.roster, who) && ClaimedTo(s, who, t)
    ensures BooksInv(t)
  {
    assert who in ActiveSet(s.roster.members);
    YieldClaim(s.accrual, ActiveSet(s.roster.members), s.history.ledger, who);
  }

  lemma StakeBooks(s: State, who: Address, amount: int)
    requires BooksInv(s) && StakingOps.StakeStep(s, who, amount).Success?
    ensures BooksInv(StakingOps.StakeStep(s, who, amount).value)
  {
    StakeShape(s, who, amount);
    StakedBooks(s, who, amount);
  }

  lemma StakedBooks(s: State, who: Address, amount: int)
    requires BooksInv(s) && who in s.roster.members && amount > 0
    ensures var k := s.staking;
            BooksInv(s.(staking := Staking(k.stakes[who := StakeOf(k.stakes, who) + amount], k.total + amount,
                                           k.times[who := s.now])))
  {
    var k := s.staking;
    StakedKept(k, s.roster.members, who, amount, s.now);
    StakesChanged(s, Staking(k.stakes[who := StakeOf(k.stakes, who) + amount], k.total + amount,
                             k.times[who := s.now]));
  }

  lemma StakeShape(s: State, who: Address, amount: int)
    requires StakingOps.StakeStep(s, who, amount).Success?
    ensures var k := s.staking;
            StakingOps.StakeStep(s, who, amount).value ==
            s.(staking := Staking(k.stakes[who := StakeOf(k.stakes, who) + amount], k.total + amount,
                                  k.times[who := s.now]))
    ensures who in s.roster.members && amount > 0
  {
  }

  lemma StakesChanged(s: State, k: Staking)
    requires BooksInv(s) && StakingInv(k, s.roster.members)
    ensures BooksInv(s.(staking := k))
  {
    var t := s.(staking := k);
    assert t.config == s.config && t.roster == s.roster && t.accrual == s.accrual && t.history == s.history;
  }

  lemma StakedKept(k: Staking, ms: map<Address, Member>, who: Address, amount: int, now: nat)
    requires StakingInv(k, ms) && who in ms && amount > 0
    ensures StakingInv(Staking(k.stakes[who := StakeOf(k.stakes, who) + amount], k.total + amount,
                               k.times[who := now]), ms)
  {
    MapSumUpdate(k.stakes, who, StakeOf(k.stakes, who) + amount);
  }

  lemma UnstakeBooks(s: State, who: Address, amount: int)
    requires BooksInv(s) && StakingOps.UnstakeStep(s, who, amount).Success?
    ensures BooksInv(StakingOps.UnstakeStep(s, who, amount).value)
  {
    UnstakeShape(s, who, amount);
    ReducedKept(s.staking, s.roster.members, who, amount);
    StakesChanged(s, StakingOps.UnstakeStep(s, who, amount).value.staking);
  }

  lemma UnstakeShape(s: State, who: Address, amount: int)
    requires StakingOps.UnstakeStep(s, who, amount).Success?
    ensures var k := s.staking;
            StakingOps.UnstakeStep(s, who, amount).value ==
            s.(staking := k.(stakes := k.stakes[who := StakeOf(k.stakes, who) - amount], total := k.total - amount))
    ensures 0 < amount <= StakeOf(s.staking.stakes, who)
  {
  }

  lemma ReducedKept(k: Staking, ms: map<Address, Member>, who: Address, amount: int)
    requires StakingInv(k, ms) && 0 < amount <= StakeOf(k.stakes, who)
    ensures StakingInv(k.(stakes := k.stakes[who := StakeOf(k.stakes, who) - amount], total := k.total - amount), ms)
  {
    MapSumUpdate(k.stakes, who, StakeOf(k.stakes, who) - amount);
  }

  lemma DistributeBooks(s: State, interest: int)
    requires BooksInv(s)
    ensures BooksInv(Lending.Distribute(s, interest))
  {
    if interest > 0 && s.roster.active != 0 {
      YieldDistribute(s.accrual, ActiveSet(s.roster.members), s.roster.active, s.history.ledger, interest);
    }
  }

  lemma DisbursalBooks(s: State, p: LoanProposal)
    requires BooksInv(s)
    ensures match Lending.ApproveAndDisburse(s, p)
            case Paid(s1) => BooksInv(s1)
            case Refused(s1, _) => BooksInv(s1)
            case HostTrap => true
  {
    if p.borrower in s.roster.members {
      RecordKept(s.roster, p.borrower, Lending.Indebted(s.roster.members[p.borrower], s.now));
    }
  }

  lemma CastLoanVoteBooks(s: State, voter: Address, id: Id, support: bool)
    requires BooksInv(s) && Lending.CastLoanVote(s, voter, id, support).Success?
    ensures BooksInv(Lending.CastLoanVote(s, voter, id, support).value)
  {
    var p := Lending.RefreshPhase(s.loans.proposals[id], s.now);
    var weight := Voting.VotingWeight(s, voter);
    BallotBooks(s, p.id, voter, support, weight);
    SettleLoanBooks(Lending.LoanBallotCast(s, p.id, voter, support, weight), Lending.CountedLoan(p, support, weight));
  }

  lemma BallotBooks(s: State, id: Id, voter: Address, support: bool, weight: int)
    requires BooksInv(s)
    ensures BooksInv(Lending.LoanBallotCast(s, id, voter, support, weight))
  {
    SameParts(s, Lending.LoanBallotCast(s, id, voter, support, weight));
  }

  lemma SameParts(s: State, t: State)
    requires BooksInv(s) && t.config == s.config && t.roster == s.roster && t.staking == s.staking
             && t.accrual == s.accrual
    requires t.history.ledger == s.history.ledger && t.history.slashedInactive == s.history.slashedInactive
    ensures BooksInv(t)
  {
  }

  lemma SettleLoanBooks(s: State, p: LoanProposal)
    requires BooksInv(s) && Lending.SettleLoan(s, p).Success?
    ensures BooksInv(Lending.SettleLoan(s, p).value)
  {
    var approved := p.(status := ApprovedPendingDisbursement, phase := ExecutedPhase);
    var s1 := WithLoanProposal(s, approved);
    PutLoanBooks(s, approved);
    DisbursalBooks(s1, approved);
    if p.forVotes >= RequiredVotes(s.roster.active, Lending.ThresholdInForce(s.config)) && p.status == Pending {
      match Lending.ApproveAndDisburse(s1, approved)
      case Paid(s2) => PutLoanBooks(s2, approved.(status := Approved));
      case Refused(s2, _) => PutLoanBooks(s2, approved);
      case HostTrap =>
    } else {
      PutLoanBooks(s, p);
      PutLoanBooks(s, p.(status := Rejected, phase := ExpiredPhase));
    }
  }

  lemma PutLoanBooks(s: State, p: LoanProposal)
    requires BooksInv(s)
    ensures BooksInv(WithLoanProposal(s, p))
  {
    SameParts(s, WithLoanProposal(s, p));
  }

  lemma {:induction false} CastLoanVotesBooks(s: State, voter: Address, votes: seq<ProposalVote>)
    requires BooksInv(s) && Lending.CastLoanVotes(s, voter, votes).Success?
    ensures BooksInv(Lending.CastLoanVotes(s, voter, votes).value)
    decreases |votes|
  {
    if votes != [] {
      CastLoanVoteBooks(s, voter, votes[0].proposalId, votes[0].vote);
      CastLoanVotesBooks(Lending.CastLoanVote(s, voter, votes[0].proposalId, votes[0].vote).value, voter, votes[1..]);
    }
  }

  lemma DisburseBooks(s: State, id: Id)
    requires BooksInv(s) && Lending.DisburseStep(s, id).Success?
    ensures BooksInv(Lending.DisburseStep(s, id).value)
  {
    DisbursalBooks(s, s.loans.proposals[id]);
  }

  lemma PaymentBooks(s: State, loan: Loan, amount: int)
    requires BooksInv(s) && Lending.ApplyPayment(s, loan, amount).Success?
    ensures BooksInv(Lending.ApplyPayment(s, loan, amount).value)
  {
    if loan.borrower in s.roster.members {
      RecordKept(s.roster, loan.borrower, Lending.Freed(s.roster.members[loan.borrower]));
    }
    var s1 := Lending.Booked(s, loan, amount);
    assert BooksInv(s1);
    var interest := Lending.InterestComponent(loan, amount);
    HandedBooks(s1, loan.id, interest);
    DistributeBooks(s1.(history := Record(s1.history, InterestHanded(loan.id, interest))), interest);
  }

  lemma HandedBooks(s: State, id: Id, interest: int)
    requires BooksInv(s)
    ensures BooksInv(s.(history := Record(s.history, InterestHanded(id, interest))))
  {
    HandedYield(s.accrual, ActiveSet(s.roster.members), s.history.ledger, id, interest);
    LedgerChanged(s, Record(s.history, InterestHanded(id, interest)));
  }

  lemma LedgerChanged(s: State, h: History)
    requires BooksInv(s) && h.slashedInactive == s.history.slashedInactive
    requires YieldInv(s.accrual, ActiveSet(s.roster.members), h.ledger)
    ensures BooksInv(s.(history := h))
  {
  }

  lemma HandedYield(y: Accrual, active: set<Address>, l: YieldLedger, id: Id, interest: int)
    requires YieldInv(y, active, l)
    ensures YieldInv(y, active, RecordYield(l, InterestHanded(id, interest)))
  {
  }

  /** The share each member receives is the documented `interest / active` exactly when the carried
      remainder does not complete another whole share. */
  lemma EqualShareIff(y: Accrual, interest: int, active: nat)
    requires interest > 0 && active > 0 && y.remainder >= 0
    ensures Lending.Shared(y, interest, active).accumulator - y.accumulator == interest / active
            <==> interest % active + y.remainder < active
  {
    SameQuotientIff(interest, y.remainder, active);
    assert (interest + y.remainder) / active >= 0;
  }

  lemma SameQuotientIff(v: int, carry: int, n: nat)
    requires n > 0 && carry >= 0
    ensures (v + carry) / n == v / n <==> v % n + carry < n
  {
    var q, r := v / n, v % n;
    assert v == q * n + r;
    if r + carry < n {
      QuotientUnique(v + carry, n, q, r + carry);
    } else {
      assert v + carry == ((v + carry) / n) * n + (v + carry) % n;
    }
  }

  lemma QuotientUnique(v: int, n: nat, q: int, r: int)
    requires n > 0 && 0 <= r < n && v == q * n + r
    ensures v / n == q
  {
    var p := v / n;
    if p < q {
      MulMonotone(p + 1, q, n);
    } else if p > q {
      MulMonotone(q + 1, p, n);
    }
  }

  lemma DefaultBooks(s: State, id: Id)
    requires BooksInv(s) && Lending.DefaultStep(s, id).Success?
    ensures BooksInv(Lending.DefaultStep(s, id).value)
  {
    DefaultShape(s, id);
    DefaultedBooks(s, id, Lending.DefaultStep(s, id).value);
  }

  lemma DefaultedBooks(s: State, id: Id, t: State)
    requires BooksInv(s) && DefaultedTo(s, id, t)
    ensures BooksInv(t)
  {
    var who := s.loans.loans[id].borrower;
    if who in s.roster.members {
      var m := s.roster.members[who];
      var penalty := Lending.DefaultPenalty(m.contribution, s.config.policy.defaultPenaltyBps);
      DefaultPenaltyBounds(m.contribution, s.config.policy.defaultPenaltyBps);
      MemberSlashed(s.roster, who, penalty, s.history.slashedInactive);
      YieldDefault(s.accrual, ActiveSet(s.roster.members), s.history.ledger, who, penalty);
    }
  }

  lemma RepayBooks(s: State, borrower: Address, id: Id, requested: Option<int>)
    requires BooksInv(s) && Lending.RepayStep(s, borrower, id, requested).Success?
    ensures BooksInv(Lending.RepayStep(s, borrower, id, requested).value)
  {
    var loan := Lending.Owed(s.loans.loans[id], s.config.policy, s.now);
    PaymentBooks(s, loan, if requested.Some? then requested.value else loan.totalRepayment - loan.amountRepaid);
  }

  lemma StepMemberBooks(c: Crypto, s: State, a: Action)
    requires MemberAction(a)
    requires BooksInv(s) && AttemptMember(s, a).Success?
    ensures BooksInv(AttemptMember(s, a).value)
  {
    match a
    case Register(who) => RegisterBooks(s, who);
    case Exit(who) => ExitBooks(s, who);
    case Claim(who) => ClaimBooks(s, who);
    case StakeTokens(who, amount) => StakeBooks(s, who, amount);
    case UnstakeTokens(who, amount) => UnstakeBooks(s, who, amount);
  }

  lemma StepLendBooks(c: Crypto, s: State, a: Action)
    requires LendAction(a)
    requires BooksInv(s) && AttemptLend(s, a).Success?
    ensures BooksInv(AttemptLend(s, a).value)
  {
    match a
    case VoteLoan(who, id, support) => CastLoanVoteBooks(s, who, id, support);
    case VoteLoans(who, votes) => CastLoanVotesBooks(s, who, votes);
    case Disburse(id) => DisburseBooks(s, id);
  }

  lemma StepServiceBooks(c: Crypto, s: State, a: Action)
    requires ServiceAction(a)
    requires BooksInv(s) && AttemptService(s, a).Success?
    ensures BooksInv(AttemptService(s, a).value)
  {
    match a
    case Repay(who, id, requested) => RepayBooks(s, who, id, requested);
    case RepayInAsset(who, id, _) => RepayBooks(s, who, id, None);
    case MarkDefaulted(id) => DefaultBooks(s, id);
  }

  lemma StepBooks(c: Crypto, s: State, a: Action)
    requires BooksInv(s)
    ensures BooksInv(Step(c, s, a))
  {
    if MemberAction(a) {
      if Attempt(c, s, a).Success? {
        StepMemberBooks(c, s, a);
      }
    } else if LendAction(a) {
      if Attempt(c, s, a).Success? {
        StepLendBooks(c, s, a);
      }
    } else if ServiceAction(a) {
      if Attempt(c, s, a).Success? {
        StepServiceBooks(c, s, a);
      }
    } else if TreasuryAction(a) {
      TreasuryFrame(c, s, a);
    } else if ProposalAction(a) {
      ProposalFrame(c, s, a);
    } else {
      EnvironmentFrame(c, s, a);
    }
  }

  lemma {:induction false} RunBooks(c: Crypto, s: State, actions: seq<Action>)
    requires BooksInv(s)
    ensures BooksInv(Run(c, s, actions))
    decreases |actions|
  {
    if actions != [] {
      StepBooks(c, s, actions[0]);
      RunBooks(c, Step(c, s, actions[0]), actions[1..]);
    }
  }
}
