/** Early rejection: when a tally the contract rejects is really out of reach of the members who have
    not voted, with votes delegated in any fixed way. */
module EarlyRejection {
  import opened Types
  import opened Arithmetic
  import opened Storage
  import opened Sums
  import opened TreasuryOps
  import opened System
  import opened Frames
  import opened Voting
  import opened Books
  import opened Reachability
  import opened History
  import Ballots
  import Credit
  import InnerFailures
  import Lending
  import Lifecycle
  import Withdrawals

  // ---- what the remaining members can still add ----

  /** Who has delegated to whom, what is staked, and who is active and so can stake more. */
  datatype Electorate = Electorate(list: seq<Address>, delegations: map<Address, Address>, stakes: map<Address, int>,
                                   active: set<Address>)

  ghost function ElectorateOf(t: State): Electorate {
    Electorate(t.roster.list, t.delegations, t.staking.stakes, ActiveSet(t.roster.members))
  }

  /** Stakes that members may come to hold: those who are not active cannot add to theirs. */
  ghost predicate Attainable(e: Electorate, stakes: map<Address, int>) {
    forall a :: a !in e.active ==> StakeOf(stakes, a) <= StakeOf(e.stakes, a)
  }

  /** A further ballot: who casts it, and the stakes at that moment. */
  datatype FutureVote = FutureVote(voter: Address, stakes: map<Address, int>)

  ghost function FutureWeight(e: Electorate, votes: seq<FutureVote>): int {
    if votes == [] then 0
    else
      var v := votes[|votes| - 1];
      FutureWeight(e, votes[..|votes| - 1]) + Weight(e.list, e.delegations, v.stakes, v.voter)
  }

  /** Ballots by distinct members who can still cast one, at stakes they can come to hold. */
  ghost predicate Continuation(e: Electorate, votes: seq<FutureVote>, remaining: set<Address>) {
    && (forall i :: 0 <= i < |votes| ==> votes[i].voter in remaining && Attainable(e, votes[i].stakes))
    && (forall i, j :: 0 <= i < j < |votes| ==> votes[i].voter != votes[j].voter)
  }

  /** No continuation reaches the bar. */
  ghost predicate OutOfReach(e: Electorate, remaining: set<Address>, forVotes: int, required: int) {
    forall votes :: Continuation(e, votes, remaining) ==> forVotes + FutureWeight(e, votes) < required
  }

  /** The most votes of their own that a member can come to have. */
  ghost function TopOwn(e: Electorate, a: Address): int {
    if a in e.active then 1 + MAX_STAKE_BONUS else OwnVotes(e.stakes, a)
  }

  ghost function TopHanded(e: Electorate, list: seq<Address>, who: Address): int {
    if list == [] then 0
    else
      var m := list[|list| - 1];
      TopHanded(e, list[..|list| - 1], who) + if DelegatesTo(e.delegations, m, who) then TopOwn(e, m) else 0
  }

  /** The most that one ballot can come to weigh. */
  ghost function TopWeight(e: Electorate, who: Address): int {
    if who in e.delegations then 0 else TopOwn(e, who) + TopHanded(e, e.list, who)
  }

  ghost function TopWeights(e: Electorate, remaining: set<Address>): map<Address, int> {
    map w | w in remaining :: TopWeight(e, w)
  }

  /** The most that all remaining ballots together can come to weigh. */
  ghost function Outstanding(e: Electorate, remaining: set<Address>): int {
    MapSum(TopWeights(e, remaining))
  }

  lemma OwnAtMost(e: Electorate, k: map<Address, int>, a: Address)
    requires Attainable(e, k)
    ensures 1 <= OwnVotes(k, a) <= TopOwn(e, a)
  {
    StakeBoostMonotone(StakeOf(k, a), StakeOf(k, a));
    if a !in e.active {
      StakeBoostMonotone(StakeOf(k, a), StakeOf(e.stakes, a));
    }
  }

  lemma {:induction false} HandedAtMost(e: Electorate, list: seq<Address>, k: map<Address, int>, who: Address)
    requires Attainable(e, k)
    ensures 0 <= HandedTo(list, e.delegations, k, who) <= TopHanded(e, list, who)
  {
    if list != [] {
      HandedAtMost(e, list[..|list| - 1], k, who);
      OwnAtMost(e, k, list[|list| - 1]);
    }
  }

  lemma WeightAtMost(e: Electorate, k: map<Address, int>, who: Address)
    requires Attainable(e, k)
    ensures 0 <= Weight(e.list, e.delegations, k, who) <= TopWeight(e, who)
  {
    HandedAtMost(e, e.list, k, who);
    OwnAtMost(e, k, who);
  }

  /** Every active member holds enough for the full boost, and nobody else has moved. */
  ghost predicate FullyStaked(e: Electorate, k: map<Address, int>) {
    forall a :: if a in e.active then StakeOf(k, a) >= 2500 else StakeOf(k, a) == StakeOf(e.stakes, a)
  }

  lemma {:induction false} HandedInFull(e: Electorate, list: seq<Address>, k: map<Address, int>, who: Address)
    requires FullyStaked(e, k)
    ensures HandedTo(list, e.delegations, k, who) == TopHanded(e, list, who)
  {
    if list != [] {
      HandedInFull(e, list[..|list| - 1], k, who);
      OwnInFull(e, k, list[|list| - 1]);
    }
  }

  lemma OwnInFull(e: Electorate, k: map<Address, int>, a: Address)
    requires FullyStaked(e, k)
    ensures OwnVotes(k, a) == TopOwn(e, a)
  {
    if a in e.active {
      StakeBoostMonotone(2500, StakeOf(k, a));
    }
  }

  lemma WeightInFull(e: Electorate, k: map<Address, int>, who: Address)
    requires FullyStaked(e, k)
    ensures Weight(e.list, e.delegations, k, who) == TopWeight(e, who)
  {
    HandedInFull(e, e.list, k, who);
    OwnInFull(e, k, who);
  }

  ghost function FullStakes(e: Electorate): map<Address, int> {
    map a | a in e.active + e.stakes.Keys :: if a in e.active then 2500 else e.stakes[a]
  }

  lemma OutstandingWithout(e: Electorate, remaining: set<Address>, w: Address)
    requires w in remaining
    ensures Outstanding(e, remaining) == TopWeight(e, w) + Outstanding(e, remaining - {w})
  {
    MapSumRemove(TopWeights(e, remaining), w);
    assert TopWeights(e, remaining) - {w} == TopWeights(e, remaining - {w});
  }

  lemma OutstandingNonNegative(e: Electorate, remaining: set<Address>)
    ensures Outstanding(e, remaining) >= 0
  {
    forall w | w in remaining
      ensures TopWeight(e, w) >= 0
    {
      WeightAtMost(e, e.stakes, w);
    }
    MapSumNonNegative(TopWeights(e, remaining));
  }

  lemma {:induction false} FutureWeightBound(e: Electorate, votes: seq<FutureVote>, remaining: set<Address>)
    requires Continuation(e, votes, remaining)
    ensures FutureWeight(e, votes) <= Outstanding(e, remaining)
    decreases |votes|
  {
    if votes == [] {
      OutstandingNonNegative(e, remaining);
    } else {
      var n := |votes| - 1;
      FutureWeightBound(e, votes[..n], remaining - {votes[n].voter});
      WeightAtMost(e, votes[n].stakes, votes[n].voter);
      OutstandingWithout(e, remaining, votes[n].voter);
    }
  }

  /** Everyone turning out at full stake attains the bound. */
  lemma {:induction false} FullTurnout(e: Electorate, remaining: set<Address>) returns (votes: seq<FutureVote>)
    ensures Continuation(e, votes, remaining) && FutureWeight(e, votes) == Outstanding(e, remaining)
    decreases |remaining|
  {
    if remaining == {} {
      votes := [];
      assert TopWeights(e, remaining) == map[];
    } else {
      var w :| w in remaining;
      var rest := FullTurnout(e, remaining - {w});
      votes := rest + [FutureVote(w, FullStakes(e))];
      assert votes[..|votes| - 1] == rest;
      WeightInFull(e, FullStakes(e), w);
      OutstandingWithout(e, remaining, w);
    }
  }

  /** A tally is out of reach exactly when all that the remaining ballots can come to weigh does not lift it
      to the bar. */
  lemma OutOfReachIff(e: Electorate, remaining: set<Address>, forVotes: int, required: int)
    ensures OutOfReach(e, remaining, forVotes, required) <==> forVotes + Outstanding(e, remaining) < required
  {
    if OutOfReach(e, remaining, forVotes, required) {
      var votes := FullTurnout(e, remaining);
      assert Continuation(e, votes, remaining);
    }
    forall votes | Continuation(e, votes, remaining)
      ensures FutureWeight(e, votes) <= Outstanding(e, remaining)
    {
      FutureWeightBound(e, votes, remaining);
    }
  }

  // ---- when the contract's bound is safe ----

  /** The contract expects six votes from each member beyond those counted. Rejecting on that bound is
      sound at every tally and every bar exactly when the remaining ballots cannot come to weigh more. */
  lemma BoundSoundIff(e: Electorate, remaining: set<Address>, active: nat, votesCast: nat)
    ensures (forall forVotes: int, required: int ::
               forVotes + MaxRemaining(active, votesCast) < required
               ==> OutOfReach(e, remaining, forVotes, required))
            <==> Outstanding(e, remaining) <= MaxRemaining(active, votesCast)
  {
    var expected := MaxRemaining(active, votesCast);
    forall forVotes: int, required: int
      ensures OutOfReach(e, remaining, forVotes, required) <==> forVotes + Outstanding(e, remaining) < required
    {
      OutOfReachIff(e, remaining, forVotes, required);
    }
    if Outstanding(e, remaining) > expected {
      assert !OutOfReach(e, remaining, 0, expected + 1);
    }
  }

  lemma {:induction false} NoneHanded(e: Electorate, list: seq<Address>, who: Address)
    requires e.delegations == map[]
    ensures TopHanded(e, list, who) == 0
  {
    if list != [] {
      NoneHanded(e, list[..|list| - 1], who);
    }
  }

  lemma {:induction false} NobodyDelegates(e: Electorate, remaining: set<Address>)
    requires e.delegations == map[] && remaining <= e.active
    ensures Outstanding(e, remaining) == (1 + MAX_STAKE_BONUS) * |remaining|
    decreases |remaining|
  {
    if remaining == {} {
      assert TopWeights(e, remaining) == map[];
    } else {
      var w :| w in remaining;
      NobodyDelegates(e, remaining - {w});
      NoneHanded(e, e.list, w);
      OutstandingWithout(e, remaining, w);
    }
  }

  /** Without delegations the bound is safe exactly when no more of those who voted have left than there are
      active members who can no longer vote, or when nobody remains. */
  lemma BoundSoundWithoutDelegation(e: Electorate, remaining: set<Address>, voted: set<Address>)
    requires e.delegations == map[] && remaining <= e.active - voted
    ensures Outstanding(e, remaining) <= MaxRemaining(|e.active|, |voted|)
            <==> |voted - e.active| <= |e.active - voted - remaining| || remaining == {}
  {
    NobodyDelegates(e, remaining);
    assert e.active == (e.active * voted) + remaining + (e.active - voted - remaining);
    assert voted == (e.active * voted) + (voted - e.active);
  }

  /** What rejecting a tally means for the ballots that can still be cast: it is lost exactly when they cannot
      lift it to the bar; always when they cannot come to weigh more than the contract expects; and so always
      while nobody has delegated and nobody who voted has left. */
  ghost predicate RejectionExact(t: State, remaining: set<Address>, voted: set<Address>, forVotes: int, required: int) {
    var e := ElectorateOf(t);
    var lost := OutOfReach(e, remaining, forVotes, required);
    && (lost <==> forVotes + Outstanding(e, remaining) < required)
    && (Outstanding(e, remaining) <= MaxRemaining(t.roster.active, |voted|) ==> lost)
    && (e.delegations == map[] && |voted - e.active| <= |e.active - voted - remaining| ==> lost)
  }

  lemma RejectedExactly(t: State, remaining: set<Address>, voted: set<Address>, forVotes: int, required: int)
    requires RosterInv(t.roster) && remaining <= ActiveSet(t.roster.members) - voted
    requires forVotes + MaxRemaining(t.roster.active, |voted|) < required
    ensures RejectionExact(t, remaining, voted, forVotes, required)
  {
    var e := ElectorateOf(t);
    OutOfReachIff(e, remaining, forVotes, required);
    if e.delegations == map[] {
      BoundSoundWithoutDelegation(e, remaining, voted);
    }
  }

  // ---- loans ----

  /** The members whose ballots on a loan the contract still accepts. */
  ghost function LoanVoters(t: State, id: Id): set<Address>
    requires id in t.loans.proposals
  {
    ActiveSet(t.roster.members) - {t.loans.proposals[id].borrower} - Ballots.VotedFor(t.loans.voted, id)
  }

  /** A rejected loan as it would be, had the ballot not rejected it. */
  ghost function LoanReopened(t: State, id: Id): State
    requires id in t.loans.proposals
  {
    var p := t.loans.proposals[id];
    t.(loans := t.loans.(proposals := t.loans.proposals[id := p.(status := Pending, phase := VotingPhase)]))
  }

  ghost predicate LoanOutOfReach(t: State, id: Id)
    requires id in t.loans.proposals
  {
    OutOfReach(ElectorateOf(t), LoanVoters(t, id), t.loans.proposals[id].forVotes,
               RequiredVotes(t.roster.active, Lending.ThresholdInForce(t.config)))
  }

  ghost predicate LoanRejection(t: State, id: Id)
    requires id in t.loans.proposals
  {
    RejectionExact(t, LoanVoters(t, id), Ballots.VotedFor(t.loans.voted, id), t.loans.proposals[id].forVotes,
                   RequiredVotes(t.roster.active, Lending.ThresholdInForce(t.config)))
  }

  /** What a loan ballot that ends in early rejection means. */
  lemma EarlyLoanRejectionSound(s: State, voter: Address, id: Id, support: bool)
    requires RosterInv(s.roster) && Lifecycle.LifeInv(s) && Ballots.LoanBallotInv(s.loans, s.history.loanBallots)
    requires Lending.CastLoanVote(s, voter, id, support).Success?
    ensures var t := Lending.CastLoanVote(s, voter, id, support).value;
            id in t.loans.proposals && (t.loans.proposals[id].status == Rejected ==> LoanRejection(t, id))
  {
    var t := Lending.CastLoanVote(s, voter, id, support).value;
    Ballots.OneVoteBallots(s, voter, id, support);
    Ballots.LoanVoteDecides(s, voter, id, support);
    VoteKeepsBase(s, voter, id, support);
    var p := t.loans.proposals[id];
    if p.status == Rejected {
      assert Ballots.LoanTallyOk(p, Listed(t.history.loanBallots, id), Ballots.VotedFor(t.loans.voted, id));
      RejectedExactly(t, LoanVoters(t, id), Ballots.VotedFor(t.loans.voted, id), p.forVotes,
                      RequiredVotes(t.roster.active, Lending.ThresholdInForce(t.config)));
    }
  }

  /** In every reachable state. */
  lemma LoanRejectionExact(c: Crypto, s: State, voter: Address, id: Id, support: bool)
    requires Reachable(c, s) && Attempt(c, s, VoteLoan(voter, id, support)).Success?
    ensures var t := Step(c, s, VoteLoan(voter, id, support));
            id in t.loans.proposals && (t.loans.proposals[id].status == Rejected ==> LoanRejection(t, id))
  {
    ReachableInv(c, s);
    VoteLoanIsCast(c, s, voter, id, support);
    EarlyLoanRejectionSound(s, voter, id, support);
  }

  lemma VoteLoanIsCast(c: Crypto, s: State, voter: Address, id: Id, support: bool)
    requires Attempt(c, s, VoteLoan(voter, id, support)).Success?
    ensures !s.config.paused && Lending.CastLoanVote(s, voter, id, support).Success?
    ensures Step(c, s, VoteLoan(voter, id, support)) == Lending.CastLoanVote(s, voter, id, support).value
  {
  }

  lemma VoteKeepsBase(s: State, voter: Address, id: Id, support: bool)
    requires RosterInv(s.roster) && Lifecycle.LifeInv(s) && Lending.CastLoanVote(s, voter, id, support).Success?
    ensures var t := Lending.CastLoanVote(s, voter, id, support).value;
            RosterInv(t.roster) && t.roster.active == s.roster.active && t.config == s.config
  {
    CastLoanVoteFrame(s, voter, id, support);
    Credit.Votable(s, voter, id, support);
    Credit.NotYetLent(s, id);
    var s1 := Lending.LoanBallotCast(s, id, voter, support, VotingWeight(s, voter));
    var counted := Lending.CountedLoan(Lending.RefreshPhase(s.loans.proposals[id], s.now), support,
                                       VotingWeight(s, voter));
    Ballots.VoteIsSettle(s, voter, id, support);
    Lifecycle.SettleLoanShape(s1, counted);
    if Lifecycle.SettledByLending(s1, counted, Lending.SettleLoan(s1, counted).value) {
      RecordKept(s.roster, counted.borrower, Lending.Indebted(s.roster.members[counted.borrower], s.now));
    }
  }

  /** The remaining voters are exactly those whose next ballot would be accepted, had the loan stayed open. */
  lemma LoanVotersAccepted(c: Crypto, s: State, voter: Address, id: Id, support: bool, who: Address, side: bool)
    requires Reachable(c, s) && Attempt(c, s, VoteLoan(voter, id, support)).Success?
    ensures var t := Step(c, s, VoteLoan(voter, id, support));
            id in t.loans.proposals
            && (Lending.LoanVoteStep(LoanReopened(t, id), who, id, side).Success? <==> who in LoanVoters(t, id))
  {
    var t := Step(c, s, VoteLoan(voter, id, support));
    ReachableInv(c, s);
    StepInv(c, s, VoteLoan(voter, id, support));
    VoteLoanIsCast(c, s, voter, id, support);
    InnerFailures.TotalNonNegative(c, t);
    InVotingWindow(s, voter, id, support);
    LoanGuards(LoanReopened(t, id), who, id, side);
  }

  /** A ballot is counted before its deadline. */
  lemma InVotingWindow(s: State, voter: Address, id: Id, support: bool)
    requires Lifecycle.LifeInv(s) && Lending.CastLoanVote(s, voter, id, support).Success?
    ensures var t := Lending.CastLoanVote(s, voter, id, support).value;
            && t.config == s.config && t.now == s.now && id in t.loans.proposals
            && var p := t.loans.proposals[id];
            p.id == id && t.now < p.editingPeriodEnd + p.votingPeriod
  {
    var t := Lending.CastLoanVote(s, voter, id, support).value;
    CastLoanVoteFrame(s, voter, id, support);
    Lifecycle.CastLoanVoteLife(s, voter, id, support);
    BeforeDeadline(s, voter, id, support);
    assert Lifecycle.Evolves(s.loans.proposals[id], t.loans.proposals[id]);
    assert Lifecycle.ProposalOk(s.loans, s.roster.members.Keys, s.history.disbursals, id);
  }

  lemma BeforeDeadline(s: State, voter: Address, id: Id, support: bool)
    requires Lending.CastLoanVote(s, voter, id, support).Success?
    ensures id in s.loans.proposals
    ensures s.now < s.loans.proposals[id].editingPeriodEnd + s.loans.proposals[id].votingPeriod
  {
  }

  lemma LoanGuards(t: State, who: Address, id: Id, side: bool)
    requires t.staking.total >= 0 && !t.config.paused && id in t.loans.proposals
    requires var p := t.loans.proposals[id];
             p.id == id && p.phase == VotingPhase && p.status == Pending
             && t.now < p.editingPeriodEnd + p.votingPeriod
    ensures Lending.LoanVoteStep(t, who, id, side).Success? <==> who in LoanVoters(t, id)
  {
    InnerFailures.CastNeverTraps(t, who, id, side);
    assert who in Ballots.VotedFor(t.loans.voted, id) <==> (id, who) in t.loans.voted;
  }

  // ---- withdrawals ----

  /** The commitment on record can be opened as a vote in favour. */
  ghost predicate CommittedFor(c: Crypto, t: State, id: Id, who: Address) {
    && (id, who) in t.treasury.commits
    && exists salt: Bytes32 :: t.treasury.commits[(id, who)] == CommitmentOf(c, who, id, true, salt)
  }

  /** The members whose votes in favour of a withdrawal the contract still accepts: on a private one only
      those who committed to such a vote. */
  ghost function WithdrawalVoters(c: Crypto, t: State, id: Id): set<Address>
    requires id in t.treasury.proposals
  {
    (if t.treasury.proposals[id].isPrivate
     then set who | who in ActiveSet(t.roster.members) && CommittedFor(c, t, id, who)
     else ActiveSet(t.roster.members)) - Ballots.VotedFor(t.treasury.voted, id)
  }

  ghost function WithdrawalReopened(t: State, id: Id): State
    requires id in t.treasury.proposals
  {
    var p := t.treasury.proposals[id];
    t.(treasury := t.treasury.(proposals := t.treasury.proposals[id := p.(status := Pending)]))
  }

  ghost predicate WithdrawalOutOfReach(c: Crypto, t: State, id: Id)
    requires id in t.treasury.proposals
  {
    OutOfReach(ElectorateOf(t), WithdrawalVoters(c, t, id), t.treasury.proposals[id].forVotes,
               RequiredVotes(t.roster.active, t.treasury.proposals[id].treasuryThreshold))
  }

  ghost predicate WithdrawalRejection(c: Crypto, t: State, id: Id)
    requires id in t.treasury.proposals
  {
    RejectionExact(t, WithdrawalVoters(c, t, id), Ballots.VotedFor(t.treasury.voted, id),
                   t.treasury.proposals[id].forVotes,
                   RequiredVotes(t.roster.active, t.treasury.proposals[id].treasuryThreshold))
  }

  /** What rejecting a withdrawal means in every reachable state, whether the ballot was open or revealed. */
  lemma EarlyWithdrawalRejectionSound(c: Crypto, s: State, a: Action)
    requires a.VoteTreasury? || a.RevealVote?
    requires Reachable(c, s) && Attempt(c, s, a).Success?
    ensures var t := Step(c, s, a);
            && a.id in t.treasury.proposals
            && (t.treasury.proposals[a.id].status == Rejected ==> WithdrawalRejection(c, t, a.id))
  {
    var t := Step(c, s, a);
    ReachableInv(c, s);
    StepInv(c, s, a);
    TreasuryFrame(c, s, a);
    BallotOutcome(c, s, a);
    if t.treasury.proposals[a.id].status == Rejected {
      RejectedWithdrawal(c, s, t, a.id);
    }
  }

  lemma RejectedWithdrawal(c: Crypto, s: State, t: State, id: Id)
    requires RosterInv(t.roster) && Withdrawals.WithdrawalInv(c, t) && t.roster == s.roster
    requires id in t.treasury.proposals && t.treasury.proposals[id].status == Rejected
    requires Withdrawals.Outcome(s, t.treasury.proposals[id], Rejected)
    ensures WithdrawalRejection(c, t, id)
  {
    var p := t.treasury.proposals[id];
    assert Withdrawals.WithdrawalOk(p, id, Listed(t.history.treasuryBallots, id),
                                    Ballots.VotedFor(t.treasury.voted, id), Listed(t.history.payouts, id));
    RejectedExactly(t, WithdrawalVoters(c, t, id), Ballots.VotedFor(t.treasury.voted, id), p.forVotes,
                    RequiredVotes(t.roster.active, p.treasuryThreshold));
  }

  lemma OutstandingMonotone(e: Electorate, some: set<Address>, all: set<Address>)
    requires some <= all
    ensures Outstanding(e, some) <= Outstanding(e, all)
    decreases |all|
  {
    if some == all {
    } else {
      var w :| w in all && w !in some;
      OutstandingMonotone(e, some, all - {w});
      OutstandingWithout(e, all, w);
      WeightAtMost(e, e.stakes, w);
    }
  }

  /** Before anything is opened: a private withdrawal is lost if the ballots of all who committed could not
      lift it to the bar, whichever way they committed. */
  lemma LostByCommitments(c: Crypto, t: State, id: Id)
    requires id in t.treasury.proposals && t.treasury.proposals[id].isPrivate
    requires var committed := set w | w in ActiveSet(t.roster.members) && (id, w) in t.treasury.commits;
             t.treasury.proposals[id].forVotes + Outstanding(ElectorateOf(t), committed)
             < RequiredVotes(t.roster.active, t.treasury.proposals[id].treasuryThreshold)
    ensures WithdrawalOutOfReach(c, t, id)
  {
    var p := t.treasury.proposals[id];
    var committed := set w | w in ActiveSet(t.roster.members) && (id, w) in t.treasury.commits;
    OutstandingMonotone(ElectorateOf(t), WithdrawalVoters(c, t, id), committed);
    OutOfReachIff(ElectorateOf(t), WithdrawalVoters(c, t, id), p.forVotes,
                  RequiredVotes(t.roster.active, p.treasuryThreshold));
  }

  lemma BallotOutcome(c: Crypto, s: State, a: Action)
    requires a.VoteTreasury? || a.RevealVote?
    requires Withdrawals.WithdrawalInv(c, s) && Attempt(c, s, a).Success?
    ensures var t := Attempt(c, s, a).value;
            && a.id in t.treasury.proposals
            && Withdrawals.Outcome(s, t.treasury.proposals[a.id], t.treasury.proposals[a.id].status)
  {
    Withdrawals.OwnId(s.treasury, s.history, s.now, a.id);
    match a
    case VoteTreasury(who, id, support) =>
      Withdrawals.VoteIsTally(s, who, id, support);
      Withdrawals.TallyShape(s, s.treasury.proposals[id], who, support);
    case RevealVote(who, id, support, salt) =>
      RevealIsTally(c, s, who, id, support, salt);
      Withdrawals.TallyShape(CommitmentOpened(s, id, who, support, salt), s.treasury.proposals[id], who, support);
  }

  /** A vote in favour that the contract accepts, cast openly or revealed. */
  ghost predicate AcceptedFor(c: Crypto, s: State, who: Address, id: Id) {
    VoteStep(s, who, id, true).Success? || exists salt: Bytes32 :: RevealStep(c, s, who, id, true, salt).Success?
  }

  /** The remaining voters are exactly those whose vote in favour would be accepted next, had the withdrawal
      stayed open; and on a private one nobody can commit any more, then or later. */
  lemma WithdrawalVotersAccepted(c: Crypto, s: State, a: Action, who: Address)
    requires a.VoteTreasury? || a.RevealVote?
    requires Reachable(c, s) && Attempt(c, s, a).Success?
    ensures var t := Step(c, s, a);
            && a.id in t.treasury.proposals
            && (AcceptedFor(c, WithdrawalReopened(t, a.id), who, a.id) <==> who in WithdrawalVoters(c, t, a.id))
    ensures forall later: nat, digest: Bytes32 :: s.now <= later ==>
              CommitStep(WithdrawalReopened(Step(c, s, a), a.id).(now := later), who, a.id, digest).Failure?
  {
    var t := Step(c, s, a);
    ReachableInv(c, s);
    StepInv(c, s, a);
    TreasuryFrame(c, s, a);
    InnerFailures.TotalNonNegative(c, t);
    InnerFailures.Dispatch(c, s, a);
    InBallotWindow(c, s, a, t);
    WithdrawalGuards(c, WithdrawalReopened(t, a.id), who, a.id);
  }

  /** Past its commit window and within its last, or simply within the only one. */
  ghost predicate BallotWindow(p: TreasuryProposal, now: nat) {
    && now <= VotingEnd(p)
    && (p.isPrivate ==> Withdrawals.CommitEnd(p) < now <= Withdrawals.CommitEnd(p) + p.votingPeriod)
  }

  lemma InBallotWindow(c: Crypto, s: State, a: Action, t: State)
    requires a.VoteTreasury? || a.RevealVote?
    requires Withdrawals.WithdrawalInv(c, s) && AttemptTreasury(c, s, a) == Success(t)
    ensures !s.config.paused && a.id in t.treasury.proposals
    ensures t.treasury.proposals[a.id].id == a.id && BallotWindow(t.treasury.proposals[a.id], s.now)
  {
    BallotGuards(c, s, a);
    Withdrawals.OwnId(s.treasury, s.history, s.now, a.id);
    Withdrawals.StepTreasuryInv(c, s, a);
    assert Withdrawals.SameRequest(s.treasury.proposals[a.id], t.treasury.proposals[a.id]);
  }

  lemma BallotGuards(c: Crypto, s: State, a: Action)
    requires a.VoteTreasury? || a.RevealVote?
    requires AttemptTreasury(c, s, a).Success?
    ensures !s.config.paused && a.id in s.treasury.proposals && BallotWindow(s.treasury.proposals[a.id], s.now)
  {
  }

  lemma WithdrawalGuards(c: Crypto, t: State, who: Address, id: Id)
    requires t.staking.total >= 0 && !t.config.paused && id in t.treasury.proposals
    requires var p := t.treasury.proposals[id]; p.id == id && p.status == Pending && BallotWindow(p, t.now)
    ensures AcceptedFor(c, t, who, id) <==> who in WithdrawalVoters(c, t, id)
    ensures forall later: nat, digest: Bytes32 :: t.now <= later ==>
              CommitStep(t.(now := later), who, id, digest).Failure?
  {
    assert who in Ballots.VotedFor(t.treasury.voted, id) <==> (id, who) in t.treasury.voted;
    InnerFailures.VoteNeverTraps(t, who, id, true);
    forall salt: Bytes32
      ensures RevealStep(c, t, who, id, true, salt).Success?
              <==> who in WithdrawalVoters(c, t, id) && t.treasury.proposals[id].isPrivate
                   && t.treasury.commits[(id, who)] == CommitmentOf(c, who, id, true, salt)
    {
      InnerFailures.RevealNeverTraps(c, t, who, id, true, salt);
    }
  }
}
