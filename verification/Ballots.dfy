/** Ballot bookkeeping: every tally is the sum of distinct, weighted ballots, and decisions follow
    from the tally. */
module Ballots {
  import opened Types
  import opened Arithmetic
  import opened History
  import opened Storage
  import opened TreasuryOps
  import opened System
  import opened Frames
  import opened Lifecycle
  import opened Voting
  import Credit
  import Lending

  // ---- tallies and the ballots behind them ----

  ghost function WeightFor(bs: seq<Ballot>, support: bool): int {
    if bs == [] then 0
    else
      var b := bs[|bs| - 1];
      WeightFor(bs[..|bs| - 1], support) + if b.support == support then b.weight else 0
  }

  ghost function VoterSet(bs: seq<Ballot>): set<Address> {
    set i | 0 <= i < |bs| :: bs[i].voter
  }

  /** The recorded voters of one proposal. */
  ghost function VotedFor(voted: set<(Id, Address)>, id: Id): set<Address> {
    set v | v in voted && v.0 == id :: v.1
  }

  /** The counters are those of the ballots cast, by as many distinct voters, all recorded. */
  ghost predicate TallyOk(forVotes: int, againstVotes: int, votesCast: nat, bs: seq<Ballot>, voters: set<Address>) {
    && votesCast == |bs| == |voters|
    && forVotes == WeightFor(bs, true) && againstVotes == WeightFor(bs, false)
    && VoterSet(bs) == voters
  }

  lemma WeightAppended(bs: seq<Ballot>, b: Ballot, support: bool)
    ensures WeightFor(bs + [b], support) == WeightFor(bs, support) + if b.support == support then b.weight else 0
  {
    assert (bs + [b])[..|bs|] == bs;
  }

  lemma VoterAppended(bs: seq<Ballot>, b: Ballot)
    ensures VoterSet(bs + [b]) == VoterSet(bs) + {b.voter}
  {
    var cs := bs + [b];
    forall v | v in VoterSet(bs) + {b.voter}
      ensures v in VoterSet(cs)
    {
      if v == b.voter {
        assert cs[|bs|].voter == v;
      } else {
        var i :| 0 <= i < |bs| && bs[i].voter == v;
        assert cs[i].voter == v;
      }
    }
  }

  lemma VotedAdded(voted: set<(Id, Address)>, id: Id, other: Id, v: Address)
    ensures VotedFor(voted + {(other, v)}, id) == if id == other then VotedFor(voted, id) + {v} else VotedFor(voted, id)
    ensures v in VotedFor(voted, id) <==> (id, v) in voted
  {
    forall w | w in VotedFor(voted, id) || (id == other && w == v)
      ensures w in VotedFor(voted + {(other, v)}, id)
    {
      assert (id, w) in voted + {(other, v)};
    }
    if (id, v) in voted {
      assert (id, v).0 == id && (id, v).1 == v;
    }
  }

  lemma TallyCounted(f: int, a: int, n: nat, bs: seq<Ballot>, voters: set<Address>, ballot: Ballot)
    requires TallyOk(f, a, n, bs, voters) && ballot.voter !in voters
    ensures TallyOk(f + (if ballot.support then ballot.weight else 0),
                    a + (if ballot.support then 0 else ballot.weight),
                    n + 1, bs + [ballot], voters + {ballot.voter})
  {
    WeightAppended(bs, ballot, true);
    WeightAppended(bs, ballot, false);
    VoterAppended(bs, ballot);
  }

  // ---- loan ballots ----

  ghost predicate LoanTallyOk(p: LoanProposal, bs: seq<Ballot>, voters: set<Address>) {
    && TallyOk(p.forVotes, p.againstVotes, p.votesCast, bs, voters)
    && p.borrower !in voters
  }

  ghost predicate LoanBallotInv(b: LoanBook, ballots: map<Id, seq<Ballot>>) {
    && (forall id :: id in b.proposals ==> LoanTallyOk(b.proposals[id], Listed(ballots, id), VotedFor(b.voted, id)))
    && (forall v :: v in b.voted ==> v.0 in b.proposals)
    && (forall id :: id in ballots ==> id in b.proposals)
  }

  ghost predicate SameTally(p: LoanProposal, q: LoanProposal) {
    && q.forVotes == p.forVotes && q.againstVotes == p.againstVotes && q.votesCast == p.votesCast
    && q.borrower == p.borrower
  }

  lemma BallotsRewritten(b: LoanBook, ballots: map<Id, seq<Ballot>>, id: Id, q: LoanProposal, c: LoanBook)
    requires LoanBallotInv(b, ballots) && id in b.proposals && SameTally(b.proposals[id], q)
    requires c.proposals == b.proposals[id := q] && c.voted == b.voted
    ensures LoanBallotInv(c, ballots)
  {
  }

  lemma BallotsOpened(b: LoanBook, ballots: map<Id, seq<Ballot>>, q: LoanProposal, c: LoanBook)
    requires LoanBallotInv(b, ballots) && q.id !in b.proposals
    requires q.forVotes == 0 && q.againstVotes == 0 && q.votesCast == 0
    requires c.proposals == b.proposals[q.id := q] && c.voted == b.voted
    ensures LoanBallotInv(c, ballots)
  {
    assert Listed(ballots, q.id) == [];
    assert VotedFor(b.voted, q.id) == {};
    EmptyTally();
  }

  lemma EmptyTally()
    ensures TallyOk(0, 0, 0, [], {})
  {
  }

  lemma BallotsCounted(b: LoanBook, ballots: map<Id, seq<Ballot>>, id: Id, q: LoanProposal, ballot: Ballot, c: LoanBook)
    requires LoanBallotInv(b, ballots) && id in b.proposals && (id, ballot.voter) !in b.voted
    requires ballot.voter != b.proposals[id].borrower
    requires SameTally(Lending.CountedLoan(b.proposals[id], ballot.support, ballot.weight), q)
    requires c.proposals == b.proposals[id := q] && c.voted == b.voted + {(id, ballot.voter)}
    ensures LoanBallotInv(c, Append(ballots, id, ballot))
  {
    forall i | i in c.proposals
      ensures LoanTallyOk(c.proposals[i], Listed(Append(ballots, id, ballot), i), VotedFor(c.voted, i))
    {
      assert LoanTallyOk(b.proposals[i], Listed(ballots, i), VotedFor(b.voted, i));
      TallyAfter(b.proposals[i], Listed(ballots, i), b.voted, i, id, ballot);
    }
  }

  /** A ballot on `id` updates the tally of `id` and leaves every other one alone. */
  lemma TallyAfter(p: LoanProposal, bs: seq<Ballot>, voted: set<(Id, Address)>, i: Id, id: Id, ballot: Ballot)
    requires LoanTallyOk(p, bs, VotedFor(voted, i))
    requires i == id ==> (id, ballot.voter) !in voted && ballot.voter != p.borrower
    ensures var after := voted + {(id, ballot.voter)};
            if i == id
            then LoanTallyOk(Lending.CountedLoan(p, ballot.support, ballot.weight), bs + [ballot], VotedFor(after, i))
            else LoanTallyOk(p, bs, VotedFor(after, i))
  {
    VotedAdded(voted, i, id, ballot.voter);
    if i == id {
      TallyCounted(p.forVotes, p.againstVotes, p.votesCast, bs, VotedFor(voted, i), ballot);
    }
  }

  /** The decision keeps the tally. */
  lemma SettledTally(s: State, p: LoanProposal, t: State)
    requires SettledByLending(s, p, t) || SettledWithout(s, p, t)
    ensures p.id in t.loans.proposals
    ensures t.loans.proposals == s.loans.proposals[p.id := t.loans.proposals[p.id]]
    ensures SameTally(p, t.loans.proposals[p.id])
    ensures t.loans.voted == s.loans.voted && t.history.loanBallots == s.history.loanBallots
  {
  }

  lemma VoteIsSettle(s: State, voter: Address, id: Id, support: bool)
    requires Lending.CastLoanVote(s, voter, id, support).Success? && s.loans.proposals[id].id == id
    ensures var counted := Lending.CountedLoan(Lending.RefreshPhase(s.loans.proposals[id], s.now), support,
                                               VotingWeight(s, voter));
            && Lending.CastLoanVote(s, voter, id, support) ==
               Lending.SettleLoan(Lending.LoanBallotCast(s, id, voter, support, VotingWeight(s, voter)), counted)
            && counted.id == id && counted.borrower == s.loans.proposals[id].borrower
            && (s.loans.proposals[id].status == Pending ==> counted.status == Pending)
            && (s.loans.proposals[id].phase == EditingPhase || s.loans.proposals[id].phase == VotingPhase)
            && SameTally(Lending.CountedLoan(s.loans.proposals[id], support, VotingWeight(s, voter)), counted)
    ensures voter != s.loans.proposals[id].borrower && (id, voter) !in s.loans.voted
  {
  }

  /** What a counted loan ballot leaves behind, whatever was decided. */
  lemma LoanVoteShape(s: State, voter: Address, id: Id, support: bool)
    requires Lending.CastLoanVote(s, voter, id, support).Success?
    requires var p := s.loans.proposals[id];
             p.id == id && p.borrower in s.roster.members
             && (p.phase == EditingPhase || p.phase == VotingPhase ==> p.status == Pending)
    ensures
      var t := Lending.CastLoanVote(s, voter, id, support).value;
      var weight := VotingWeight(s, voter);
      && voter != s.loans.proposals[id].borrower && (id, voter) !in s.loans.voted
      && id in t.loans.proposals
      && t.loans.proposals == s.loans.proposals[id := t.loans.proposals[id]]
      && SameTally(Lending.CountedLoan(s.loans.proposals[id], support, weight), t.loans.proposals[id])
      && t.loans.voted == s.loans.voted + {(id, voter)}
      && t.history.loanBallots == Append(s.history.loanBallots, id, Ballot(voter, support, weight))
  {
    var weight := VotingWeight(s, voter);
    var s1 := Lending.LoanBallotCast(s, id, voter, support, weight);
    var counted := Lending.CountedLoan(Lending.RefreshPhase(s.loans.proposals[id], s.now), support, weight);
    VoteIsSettle(s, voter, id, support);
    SettleLoanShape(s1, counted);
    SettledTally(s1, counted, Lending.SettleLoan(s1, counted).value);
    BallotCastShape(s, id, voter, support, weight);
  }

  lemma BallotCastShape(s: State, id: Id, voter: Address, support: bool, weight: int)
    ensures var s1 := Lending.LoanBallotCast(s, id, voter, support, weight);
            && s1.loans.proposals == s.loans.proposals && s1.loans.voted == s.loans.voted + {(id, voter)}
            && s1.history.loanBallots == Append(s.history.loanBallots, id, Ballot(voter, support, weight))
  {
  }

  lemma CastLoanVoteBallots(s: State, voter: Address, id: Id, support: bool)
    requires LoanBallotInv(s.loans, s.history.loanBallots) && Lending.CastLoanVote(s, voter, id, support).Success?
    requires var p := s.loans.proposals[id];
             p.id == id && p.borrower in s.roster.members
             && (p.phase == EditingPhase || p.phase == VotingPhase ==> p.status == Pending)
    ensures var t := Lending.CastLoanVote(s, voter, id, support).value; LoanBallotInv(t.loans, t.history.loanBallots)
  {
    var t := Lending.CastLoanVote(s, voter, id, support).value;
    LoanVoteShape(s, voter, id, support);
    BallotsCounted(s.loans, s.history.loanBallots, id, t.loans.proposals[id],
                   Ballot(voter, support, VotingWeight(s, voter)), t.loans);
  }

  lemma OneVoteBallots(s: State, voter: Address, id: Id, support: bool)
    requires LifeInv(s) && LoanBallotInv(s.loans, s.history.loanBallots)
    requires Lending.CastLoanVote(s, voter, id, support).Success?
    ensures var t := Lending.CastLoanVote(s, voter, id, support).value; LoanBallotInv(t.loans, t.history.loanBallots)
  {
    Credit.Votable(s, voter, id, support);
    Credit.NotYetLent(s, id);
    CastLoanVoteBallots(s, voter, id, support);
  }

  lemma {:induction false} CastLoanVotesBallots(s: State, voter: Address, votes: seq<ProposalVote>)
    requires LifeInv(s) && LoanBallotInv(s.loans, s.history.loanBallots)
    requires Lending.CastLoanVotes(s, voter, votes).Success?
    ensures var t := Lending.CastLoanVotes(s, voter, votes).value; LoanBallotInv(t.loans, t.history.loanBallots)
    decreases |votes|
  {
    if votes != [] {
      CastLoanVoteLife(s, voter, votes[0].proposalId, votes[0].vote);
      OneVoteBallots(s, voter, votes[0].proposalId, votes[0].vote);
      CastLoanVotesBallots(Lending.CastLoanVote(s, voter, votes[0].proposalId, votes[0].vote).value, voter, votes[1..]);
    }
  }

  lemma DisburseBallots(s: State, id: Id)
    requires LoanBallotInv(s.loans, s.history.loanBallots) && Lending.DisburseStep(s, id).Success?
    requires s.loans.proposals[id].id == id
    ensures var t := Lending.DisburseStep(s, id).value; LoanBallotInv(t.loans, t.history.loanBallots)
  {
    var t := Lending.DisburseStep(s, id).value;
    DisburseTally(s, id);
    BallotsRewritten(s.loans, s.history.loanBallots, id, s.loans.proposals[id].(status := Approved), t.loans);
  }

  lemma DisburseTally(s: State, id: Id)
    requires Lending.DisburseStep(s, id).Success? && s.loans.proposals[id].id == id
    ensures var t := Lending.DisburseStep(s, id).value;
            && id in s.loans.proposals && t.loans.voted == s.loans.voted
            && t.history.loanBallots == s.history.loanBallots
            && t.loans.proposals == s.loans.proposals[id := s.loans.proposals[id].(status := Approved)]
  {
    DisbursalShape(s, s.loans.proposals[id]);
  }

  lemma RequestBallots(s: State, who: Address, amount: int, asset: Address, cid: Option<string>)
    requires LoanBallotInv(s.loans, s.history.loanBallots) && s.loans.next !in s.loans.proposals
    requires Lending.RequestStep(s, who, amount, asset, cid).Success?
    ensures var t := Lending.RequestStep(s, who, amount, asset, cid).value;
            LoanBallotInv(t.loans, t.history.loanBallots)
  {
    BallotsOpened(s.loans, s.history.loanBallots, Lending.NewProposal(s, who, amount, asset, cid),
                  Lending.RequestStep(s, who, amount, asset, cid).value.loans);
  }

  lemma EditBallots(s: State, who: Address, id: Id, amount: int)
    requires LoanBallotInv(s.loans, s.history.loanBallots) && id in s.loans.proposals && s.loans.proposals[id].id == id
    ensures var r := Lending.EditStep(s, who, id, amount);
            r.Success? ==> LoanBallotInv(r.value.loans, r.value.history.loanBallots)
  {
    var edit := Lending.EditStep(s, who, id, amount);
    if edit.Success? {
      BallotsRewritten(s.loans, s.history.loanBallots, id, edit.value.loans.proposals[id], edit.value.loans);
    }
  }

  lemma CloseBallots(s: State, who: Address, id: Id)
    requires LoanBallotInv(s.loans, s.history.loanBallots) && id in s.loans.proposals && s.loans.proposals[id].id == id
    ensures var r := Lending.CancelLoanStep(s, who, id);
            r.Success? ==> LoanBallotInv(r.value.loans, r.value.history.loanBallots)
    ensures var r := Lending.ExpireLoanStep(s, id);
            r.Success? ==> LoanBallotInv(r.value.loans, r.value.history.loanBallots)
  {
    var cancel, expire := Lending.CancelLoanStep(s, who, id), Lending.ExpireLoanStep(s, id);
    if cancel.Success? {
      BallotsRewritten(s.loans, s.history.loanBallots, id, cancel.value.loans.proposals[id], cancel.value.loans);
    }
    if expire.Success? && s.loans.proposals[id].phase != ExpiredPhase {
      BallotsRewritten(s.loans, s.history.loanBallots, id, expire.value.loans.proposals[id], expire.value.loans);
    }
  }

  lemma IdsMatch(s: State, id: Id)
    requires LifeInv(s)
    ensures id in s.loans.proposals ==> s.loans.proposals[id].id == id
    ensures s.loans.next !in s.loans.proposals
  {
    assert forall i :: i in s.loans.proposals ==> ProposalOk(s.loans, s.roster.members.Keys, s.history.disbursals, i);
  }

  lemma StepProposalBallots(c: Crypto, s: State, a: Action)
    requires ProposalAction(a) && LifeInv(s) && LoanBallotInv(s.loans, s.history.loanBallots)
    requires AttemptProposal(s, a).Success?
    ensures var t := AttemptProposal(s, a).value; LoanBallotInv(t.loans, t.history.loanBallots)
  {
    match a
    case RequestLoan(who, amount, asset, cid) =>
      IdsMatch(s, 0);
      RequestBallots(s, who, amount, asset, cid);
    case EditLoan(who, id, amount) =>
      IdsMatch(s, id);
      EditBallots(s, who, id, amount);
    case CancelLoan(who, id) =>
      IdsMatch(s, id);
      CloseBallots(s, who, id);
    case ExpireLoan(id) =>
      IdsMatch(s, id);
      CloseBallots(s, 0, id);
  }

  ghost predicate SameBallots(s: State, t: State) {
    && t.loans.proposals == s.loans.proposals && t.loans.voted == s.loans.voted
    && t.history.loanBallots == s.history.loanBallots
  }

  lemma RepayBallots(s: State, who: Address, id: Id, requested: Option<int>)
    requires Lending.RepayStep(s, who, id, requested).Success?
    ensures SameBallots(s, Lending.RepayStep(s, who, id, requested).value)
  {
    var owed := Lending.Owed(s.loans.loans[id], s.config.policy, s.now);
    PaymentShape(s, owed, if requested.Some? then requested.value else owed.totalRepayment - owed.amountRepaid);
  }

  lemma DefaultBallots(s: State, id: Id)
    requires Lending.DefaultStep(s, id).Success?
    ensures SameBallots(s, Lending.DefaultStep(s, id).value)
  {
    DefaultShape(s, id);
  }

  lemma StepServiceBallots(c: Crypto, s: State, a: Action)
    requires ServiceAction(a)
    requires AttemptService(s, a).Success?
    ensures SameBallots(s, AttemptService(s, a).value)
  {
    match a
    case Repay(who, id, requested) => RepayBallots(s, who, id, requested);
    case RepayInAsset(who, id, _) => RepayBallots(s, who, id, None);
    case MarkDefaulted(id) => DefaultBallots(s, id);
  }

  lemma StepLendBallots(c: Crypto, s: State, a: Action)
    requires LendAction(a) && LifeInv(s) && LoanBallotInv(s.loans, s.history.loanBallots)
    requires AttemptLend(s, a).Success?
    ensures var t := AttemptLend(s, a).value; LoanBallotInv(t.loans, t.history.loanBallots)
  {
    match a
    case VoteLoan(who, id, support) => OneVoteBallots(s, who, id, support);
    case VoteLoans(who, votes) => CastLoanVotesBallots(s, who, votes);
    case Disburse(id) =>
      IdsMatch(s, id);
      DisburseBallots(s, id);
  }

  /** Actions that neither ask, edit nor vote leave loan ballots alone. */
  lemma OtherBallots(c: Crypto, s: State, a: Action)
    requires !ProposalAction(a) && !LendAction(a)
    ensures SameBallots(s, Step(c, s, a))
  {
    if MemberAction(a) {
      MemberFrame(c, s, a);
    } else if ServiceAction(a) {
      if AttemptService(s, a).Success? {
        StepServiceBallots(c, s, a);
      }
    } else if TreasuryAction(a) {
      TreasuryFrame(c, s, a);
    } else {
      EnvironmentFrame(c, s, a);
    }
  }

  lemma BallotsKept(b: LoanBook, d: LoanBook, ballots: map<Id, seq<Ballot>>)
    requires LoanBallotInv(b, ballots) && d.proposals == b.proposals && d.voted == b.voted
    ensures LoanBallotInv(d, ballots)
  {
  }

  lemma TriedLoanBallots(c: Crypto, s: State, a: Action, t: State)
    requires ProposalAction(a) || LendAction(a)
    requires LifeInv(s) && LoanBallotInv(s.loans, s.history.loanBallots) && Attempt(c, s, a) == Success(t)
    ensures LoanBallotInv(t.loans, t.history.loanBallots)
  {
    if ProposalAction(a) {
      StepProposalBallots(c, s, a);
    } else {
      StepLendBallots(c, s, a);
    }
  }

  lemma StepLoanBallots(c: Crypto, s: State, a: Action)
    requires LifeInv(s) && LoanBallotInv(s.loans, s.history.loanBallots)
    ensures var t := Step(c, s, a); LoanBallotInv(t.loans, t.history.loanBallots)
  {
    var t := Step(c, s, a);
    if ProposalAction(a) || LendAction(a) {
      if Attempt(c, s, a).Success? {
        TriedLoanBallots(c, s, a, t);
      }
    } else {
      OtherBallots(c, s, a);
      BallotsKept(s.loans, t.loans, s.history.loanBallots);
    }
  }

  lemma InitialLoanBallots(s: State)
    requires Initial(s)
    ensures LoanBallotInv(s.loans, s.history.loanBallots)
  {
  }

  // ---- what a deciding step decides ----

  ghost predicate Decision(p: LoanProposal, active: nat, threshold: nat) {
    && (p.status == ApprovedPendingDisbursement || p.status == Approved
        <==> p.forVotes * BASIS_POINTS >= active * threshold)
    && (p.status == Rejected <==> p.forVotes + MaxRemaining(active, p.votesCast) < RequiredVotes(active, threshold))
    && (p.votesCast >= active ==> p.status != Pending)
  }

  /** After a counted loan ballot the proposal is approved exactly when its weight reaches the
      threshold share of the active members, and rejected exactly when even every remaining member
      at full weight could not lift it there. */
  lemma LoanVoteDecides(s: State, voter: Address, id: Id, support: bool)
    requires LifeInv(s) && Lending.CastLoanVote(s, voter, id, support).Success?
    ensures
      var after := Lending.CastLoanVote(s, voter, id, support).value.loans.proposals;
      var quorum := s.config.policy.quorumBps;
      id in after && Decision(after[id], s.roster.active, if quorum > 0 then quorum else s.config.threshold)
  {
    Credit.Votable(s, voter, id, support);
    Credit.NotYetLent(s, id);
    VoteDecides(s, voter, id, support);
  }

  lemma VoteDecides(s: State, voter: Address, id: Id, support: bool)
    requires Lending.CastLoanVote(s, voter, id, support).Success?
    requires var p := s.loans.proposals[id];
             p.id == id && p.borrower in s.roster.members
             && (p.phase == EditingPhase || p.phase == VotingPhase ==> p.status == Pending)
    ensures
      var after := Lending.CastLoanVote(s, voter, id, support).value.loans.proposals;
      id in after && Decision(after[id], s.roster.active, Lending.ThresholdInForce(s.config))
  {
    var p := Lending.RefreshPhase(s.loans.proposals[id], s.now);
    var weight := VotingWeight(s, voter);
    var counted := Lending.CountedLoan(p, support, weight);
    RequiredVotesExact(counted.forVotes, s.roster.active, Lending.ThresholdInForce(s.config));
    SettleDecides(Lending.LoanBallotCast(s, id, voter, support, weight), counted);
  }

  lemma SettleDecides(s: State, p: LoanProposal)
    requires Lending.SettleLoan(s, p).Success? && p.status == Pending && p.borrower in s.roster.members
    ensures
      var q := Lending.SettleLoan(s, p).value.loans.proposals;
      var required := RequiredVotes(s.roster.active, Lending.ThresholdInForce(s.config));
      && p.id in q && q[p.id].forVotes == p.forVotes && q[p.id].votesCast == p.votesCast
      && (q[p.id].status == ApprovedPendingDisbursement || q[p.id].status == Approved <==> p.forVotes >= required)
      && (q[p.id].status == Rejected <==> p.forVotes < required - MaxRemaining(s.roster.active, p.votesCast))
      && (q[p.id].status == Pending || q[p.id].status == ApprovedPendingDisbursement || q[p.id].status == Approved
          || q[p.id].status == Rejected)
  {
    var approved := ApprovedFrom(p);
    RefusedWritesNothing(WithLoanProposal(s, approved), approved);
    DisbursalShape(WithLoanProposal(s, approved), approved);
  }
}
