/** Every way a loan comes to be or changes, whatever the action. */
module LoanChanges {
  import opened Types
  import opened Storage
  import opened TreasuryOps
  import opened System
  import opened Fields
  import opened LoanLaws
  import opened RepaymentLaws
  import opened Reachability
  import Credit
  import InnerFailures
  import Lending
  import Lifecycle

  // ---- batches ----

  /** A batch is its ballots, one after the other; the first that is refused refuses them all. */
  lemma BatchIsBallots(s: State, voter: Address, votes: seq<ProposalVote>)
    requires Lifecycle.LifeInv(s) && s.staking.total >= 0 && !s.config.paused && Enlisted(s, voter)
    ensures Lending.VoteBatchStep(s, voter, votes)
            == if votes == [] then Success(s)
               else match Lending.LoanVoteStep(s, voter, votes[0].proposalId, votes[0].vote)
                    case Failure(e) => Failure(e)
                    case Success(u) => Lending.VoteBatchStep(u, voter, votes[1..])
  {
    if votes != [] && Lending.CastLoanVote(s, voter, votes[0].proposalId, votes[0].vote).Success? {
      LoanBallotEffect(s, voter, votes[0].proposalId, votes[0].vote);
    }
  }

  /** Casting the batch goes through `u` right before its ballot on proposal `id`. */
  ghost predicate BeforeBallot(s: State, voter: Address, votes: seq<ProposalVote>, id: Id, u: State)
    decreases |votes|
  {
    && votes != []
    && (|| (u == s && votes[0].proposalId == id)
        || (var r := Lending.CastLoanVote(s, voter, votes[0].proposalId, votes[0].vote);
            r.Success? && BeforeBallot(r.value, voter, votes[1..], id, u)))
  }

  ghost predicate SameMoment(s: State, u: State) {
    u.now == s.now && u.config == s.config && u.staking == s.staking
  }

  /** The proposal at `id` becomes the loan `x`, paid from state `u`. */
  ghost predicate OpenedFrom(u: State, id: Id, x: Loan) {
    id in u.loans.proposals && LoanOf(u, id, u.loans.proposals[id].borrower, u.loans.proposals[id].amount, x)
  }

  /** What one lending step does to the loans: nothing, or one more from the state before it. */
  ghost predicate OneOpened(s: State, t: State, id: Id) {
    && SameMoment(s, t)
    && (t.loans.loans == s.loans.loans
        || (id !in s.loans.loans && id in t.loans.loans && OpenedFrom(s, id, t.loans.loans[id])
            && t.loans.loans == s.loans.loans[id := t.loans.loans[id]]))
  }

  lemma BallotOpens(s: State, voter: Address, id: Id, support: bool)
    requires Lifecycle.LifeInv(s) && s.staking.total >= 0 && Lending.CastLoanVote(s, voter, id, support).Success?
    ensures OneOpened(s, Lending.CastLoanVote(s, voter, id, support).value, id)
  {
    LoanBallotEffect(s, voter, id, support);
  }

  ghost predicate NoneTouched(m: map<Id, Loan>, n: map<Id, Loan>) {
    forall id :: id in m ==> id in n && n[id] == m[id]
  }

  lemma OneOpenedKeeps(s: State, t: State, id: Id)
    requires OneOpened(s, t, id)
    ensures NoneTouched(s.loans.loans, t.loans.loans) && t.staking == s.staking
  {
  }

  lemma BallotKeepsLoans(s: State, voter: Address, id: Id, support: bool)
    requires Lifecycle.LifeInv(s) && s.staking.total >= 0 && Lending.CastLoanVote(s, voter, id, support).Success?
    ensures var t := Lending.CastLoanVote(s, voter, id, support).value;
            NoneTouched(s.loans.loans, t.loans.loans) && t.staking == s.staking && Lifecycle.LifeInv(t)
  {
    BallotOpens(s, voter, id, support);
    OneOpenedKeeps(s, Lending.CastLoanVote(s, voter, id, support).value, id);
    Lifecycle.CastLoanVoteLife(s, voter, id, support);
  }

  lemma {:induction false} BatchKeepsLoans(s: State, voter: Address, votes: seq<ProposalVote>)
    requires Lifecycle.LifeInv(s) && s.staking.total >= 0 && Lending.CastLoanVotes(s, voter, votes).Success?
    ensures NoneTouched(s.loans.loans, Lending.CastLoanVotes(s, voter, votes).value.loans.loans)
    decreases |votes|
  {
    if votes != [] {
      BallotKeepsLoans(s, voter, votes[0].proposalId, votes[0].vote);
      BatchKeepsLoans(Lending.CastLoanVote(s, voter, votes[0].proposalId, votes[0].vote).value, voter, votes[1..]);
    }
  }

  lemma {:induction false} BatchOpens(s: State, voter: Address, votes: seq<ProposalVote>, id: Id) returns (u: State)
    requires Lifecycle.LifeInv(s) && s.staking.total >= 0 && Lending.CastLoanVotes(s, voter, votes).Success?
    requires id !in s.loans.loans && id in Lending.CastLoanVotes(s, voter, votes).value.loans.loans
    ensures BeforeBallot(s, voter, votes, id, u) && SameMoment(s, u)
    ensures OpenedFrom(u, id, Lending.CastLoanVotes(s, voter, votes).value.loans.loans[id])
    decreases |votes|
  {
    var first := votes[0].proposalId;
    var s1 := Lending.CastLoanVote(s, voter, first, votes[0].vote).value;
    BallotOpens(s, voter, first, votes[0].vote);
    BallotKeepsLoans(s, voter, first, votes[0].vote);
    if id in s1.loans.loans {
      u := s;
      BatchKeepsLoans(s1, voter, votes[1..]);
    } else {
      u := BatchOpens(s1, voter, votes[1..], id);
    }
  }

  lemma DisbursementOpens(s: State, id: Id)
    requires Lifecycle.LifeInv(s) && Lending.DisburseStep(s, id).Success?
    ensures OneOpened(s, Lending.DisburseStep(s, id).value, id)
  {
    DisbursementEffect(s, id);
  }

  // ---- every action ----

  /** The state a loan is paid from inside a step: the one before it, or before one ballot of a batch. */
  ghost predicate PaidFrom(s: State, a: Action, id: Id, u: State) {
    match a
    case VoteLoan(_, i, _) => i == id && u == s
    case Disburse(i) => i == id && u == s
    case VoteLoans(who, votes) => BeforeBallot(s, who, votes, id, u)
    case _ => false
  }

  lemma FromHere(s: State, t: State, i: Id, id: Id) returns (u: State)
    requires OneOpened(s, t, i) && id !in s.loans.loans && id in t.loans.loans
    ensures u == s && i == id && SameMoment(s, u) && OpenedFrom(u, id, t.loans.loans[id])
  {
    u := s;
  }

  lemma LendOpens(s: State, a: Action, id: Id) returns (u: State)
    requires LendAction(a) && Lifecycle.LifeInv(s) && s.staking.total >= 0 && AttemptLend(s, a).Success?
    requires id !in s.loans.loans && id in AttemptLend(s, a).value.loans.loans
    ensures PaidFrom(s, a, id, u) && SameMoment(s, u)
    ensures OpenedFrom(u, id, AttemptLend(s, a).value.loans.loans[id])
  {
    match a
    case VoteLoan(who, i, support) =>
      BallotOpens(s, who, i, support);
      u := FromHere(s, AttemptLend(s, a).value, i, id);
    case VoteLoans(who, votes) =>
      u := BatchOpens(s, who, votes, id);
    case Disburse(i) =>
      DisbursementOpens(s, i);
      u := FromHere(s, AttemptLend(s, a).value, i, id);
  }

  lemma LendKeepsLoans(s: State, a: Action)
    requires LendAction(a) && Lifecycle.LifeInv(s) && s.staking.total >= 0 && AttemptLend(s, a).Success?
    ensures NoneTouched(s.loans.loans, AttemptLend(s, a).value.loans.loans)
  {
    match a
    case VoteLoan(who, i, support) => BallotKeepsLoans(s, who, i, support);
    case VoteLoans(who, votes) => BatchKeepsLoans(s, who, votes);
    case Disburse(i) =>
      DisbursementOpens(s, i);
      OneOpenedKeeps(s, AttemptLend(s, a).value, i);
  }

  lemma OthersKeepLoans(c: Crypto, s: State, a: Action)
    requires Lifecycle.LifeInv(s) && !DebtAction(a)
    ensures Step(c, s, a).loans.loans == s.loans.loans
  {
    if ProposalAction(a) {
      if AttemptProposal(s, a).Success? {
        Credit.ProposalLoansKept(s, a);
      }
    } else {
      Lifecycle.KeptLife(c, s, a);
    }
  }

  lemma LendDispatch(c: Crypto, s: State, a: Action)
    requires LendAction(a)
    ensures Step(c, s, a) == match AttemptLend(s, a) case Success(t) => t case Failure(_) => s
  {
  }

  lemma ServiceDispatch(c: Crypto, s: State, a: Action)
    requires ServiceAction(a)
    ensures Step(c, s, a) == match AttemptService(s, a) case Success(t) => t case Failure(_) => s
  {
  }

  /** Whatever the step, a loan that appears in it has the terms of its proposal, runs from that moment for the
      policy's duration with nothing repaid, and is priced at the pool of its token right before it was paid. */
  lemma EveryLoanPriced(c: Crypto, s: State, a: Action, id: Id)
    requires Reachable(c, s) && id !in s.loans.loans && id in Step(c, s, a).loans.loans
    ensures exists u :: PaidFrom(s, a, id, u) && SameMoment(s, u) && OpenedFrom(u, id, Step(c, s, a).loans.loans[id])
  {
    ReachableInv(c, s);
    InnerFailures.TotalNonNegative(c, s);
    NewLoan(c, s, a, id, Step(c, s, a));
  }

  lemma NewLoan(c: Crypto, s: State, a: Action, id: Id, t: State)
    requires Lifecycle.LifeInv(s) && s.staking.total >= 0 && s.accrual.remainder >= 0 && t == Step(c, s, a)
    requires id !in s.loans.loans && id in t.loans.loans
    ensures exists u :: PaidFrom(s, a, id, u) && SameMoment(s, u) && OpenedFrom(u, id, t.loans.loans[id])
  {
    if LendAction(a) {
      LendDispatch(c, s, a);
      var u := LendOpens(s, a, id);
    } else if ServiceAction(a) {
      ServiceChanges(c, s, a, t);
    } else {
      OthersKeepLoans(c, s, a);
    }
  }

  /** A payment by the borrower of an active loan, of no more than is owed. */
  ghost predicate PaymentOn(s: State, a: Action, id: Id, y: Loan)
    requires id in s.loans.loans
  {
    var x, bps := s.loans.loans[id], s.config.policy.defaultPenaltyBps;
    && (a.Repay? || a.RepayInAsset?) && a.id == id && a.who == x.borrower && x.status == Active
    && var paid := Due(x, bps, s.now, if a.Repay? then a.requested else None);
    0 < paid <= StillOwed(x, bps, s.now) && y == PaidOn(x, bps, s.now, paid)
  }

  /** A default, after the grace period. */
  ghost predicate DefaultOf(s: State, a: Action, id: Id, y: Loan)
    requires id in s.loans.loans
  {
    var x := s.loans.loans[id];
    && a == MarkDefaulted(id) && x.status == Active
    && s.now >= x.dueTime + s.config.policy.defaultGracePeriod
    && y == x.(status := Defaulted)
  }

  ghost predicate ChangedOnlyBy(s: State, a: Action, id: Id, t: State)
    requires id in s.loans.loans
  {
    && id in t.loans.loans
    && (t.loans.loans[id] == s.loans.loans[id] || PaymentOn(s, a, id, t.loans.loans[id])
        || DefaultOf(s, a, id, t.loans.loans[id]))
  }

  lemma RepayChanges(s: State, a: Action, t: State)
    requires Lifecycle.LifeInv(s) && s.accrual.remainder >= 0
    requires (a.Repay? || a.RepayInAsset?) && AttemptService(s, a) == Success(t)
    ensures a.id in s.loans.loans && a.id in t.loans.loans && PaymentOn(s, a, a.id, t.loans.loans[a.id])
    ensures t.loans.loans == s.loans.loans[a.id := t.loans.loans[a.id]]
  {
    var requested := if a.Repay? then a.requested else None;
    if a.RepayInAsset? {
      RepaymentInTokenIff(s, a.who, a.id, a.asset);
    }
    RepaymentAcceptedIff(s, a.who, a.id, requested);
    RepaymentEffect(s, a.who, a.id, requested);
  }

  lemma DefaultChanges(s: State, id: Id)
    requires Lending.DefaultStep(s, id).Success?
    ensures var t := Lending.DefaultStep(s, id).value;
            && id in s.loans.loans && id in t.loans.loans
            && t.loans.loans == s.loans.loans[id := t.loans.loans[id]]
            && DefaultOf(s, MarkDefaulted(id), id, t.loans.loans[id])
  {
    DefaultEffect(s, id);
    DefaultAcceptedIff(s, id);
  }

  lemma ServiceChanges(c: Crypto, s: State, a: Action, t: State)
    requires Lifecycle.LifeInv(s) && s.accrual.remainder >= 0 && ServiceAction(a) && t == Step(c, s, a)
    ensures t.loans.loans.Keys == s.loans.loans.Keys
    ensures forall id :: id in s.loans.loans ==> ChangedOnlyBy(s, a, id, t)
  {
    ServiceDispatch(c, s, a);
    if AttemptService(s, a).Success? {
      if a.MarkDefaulted? {
        DefaultChanges(s, a.id);
      } else {
        RepayChanges(s, a, t);
      }
    }
  }

  /** Whatever the step, a loan changes only by its borrower's payment or by a default after its grace period. */
  lemma EveryLoanChange(c: Crypto, s: State, a: Action, id: Id)
    requires Reachable(c, s) && id in s.loans.loans
    ensures ChangedOnlyBy(s, a, id, Step(c, s, a))
  {
    ReachableInv(c, s);
    InnerFailures.TotalNonNegative(c, s);
    LoanChanged(c, s, a, id, Step(c, s, a));
  }

  lemma LoanChanged(c: Crypto, s: State, a: Action, id: Id, t: State)
    requires Lifecycle.LifeInv(s) && s.staking.total >= 0 && s.accrual.remainder >= 0 && t == Step(c, s, a)
    requires id in s.loans.loans
    ensures ChangedOnlyBy(s, a, id, t)
  {
    if LendAction(a) {
      LendDispatch(c, s, a);
      if AttemptLend(s, a).Success? {
        LendKeepsLoans(s, a);
      }
    } else if ServiceAction(a) {
      ServiceChanges(c, s, a, t);
    } else {
      OthersKeepLoans(c, s, a);
    }
  }

  /** In particular no loan defaults before its grace period is over. */
  lemma NoEarlyDefault(c: Crypto, s: State, a: Action, id: Id)
    requires Reachable(c, s) && id in s.loans.loans && s.loans.loans[id].status == Active
    requires id in Step(c, s, a).loans.loans && Step(c, s, a).loans.loans[id].status == Defaulted
    ensures s.now >= s.loans.loans[id].dueTime + s.config.policy.defaultGracePeriod
  {
    EveryLoanChange(c, s, a, id);
  }
}
