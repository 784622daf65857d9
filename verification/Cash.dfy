/** Tokens: who is paid what by each entrypoint, and that no entrypoint creates or destroys any. */
module Cash {
  import opened Types
  import opened Arithmetic
  import opened Storage
  import opened Sums
  import opened TreasuryOps
  import opened System
  import opened Frames
  import opened Lifecycle
  import opened Voting
  import Membership
  import Lending
  import Withdrawals

  // ---- conservation ----

  ghost function Holdings(b: Balances, asset: Address): map<(Address, Address), int> {
    map k | k in b && k.0 == asset :: b[k]
  }

  /** All tokens of one asset, wherever they are held. */
  ghost function Supply(b: Balances, asset: Address): int { MapSum(Holdings(b, asset)) }

  lemma SupplyUpdate(b: Balances, asset: Address, holder: Address, v: int, other: Address)
    ensures Supply(b[(asset, holder) := v], other) ==
            Supply(b, other) + if other == asset then v - Balance(b, asset, holder) else 0
  {
    var n := b[(asset, holder) := v];
    if other == asset {
      assert Holdings(n, asset) == Holdings(b, asset)[(asset, holder) := v];
      MapSumUpdate(Holdings(b, asset), (asset, holder), v);
    } else {
      assert Holdings(n, other) == Holdings(b, other);
    }
  }

  ghost predicate SameSupply(b: Balances, d: Balances) {
    forall asset :: Supply(d, asset) == Supply(b, asset)
  }

  lemma TransferConserves(b: Balances, asset: Address, from: Address, to: Address, amount: int)
    requires Transfer(b, asset, from, to, amount).Success?
    ensures SameSupply(b, Transfer(b, asset, from, to, amount).value)
  {
    var paid := b[(asset, from) := Balance(b, asset, from) - amount];
    forall other
      ensures Supply(Transfer(b, asset, from, to, amount).value, other) == Supply(b, other)
    {
      SupplyUpdate(b, asset, from, Balance(b, asset, from) - amount, other);
      SupplyUpdate(paid, asset, to, Balance(paid, asset, to) + amount, other);
    }
  }

  // ---- what each entrypoint pays ----

  datatype Flow = Flow(asset: Address, from: Address, to: Address, amount: int)

  /** The balances after the flows, in order. */
  ghost predicate Flows(b: Balances, flows: seq<Flow>, d: Balances)
    decreases |flows|
  {
    if flows == [] then d == b
    else
      var f := flows[0];
      var r := Transfer(b, f.asset, f.from, f.to, f.amount);
      r.Success? && Flows(r.value, flows[1..], d)
  }

  lemma {:induction false} FlowsConserve(b: Balances, flows: seq<Flow>, d: Balances)
    requires Flows(b, flows, d)
    ensures SameSupply(b, d)
    decreases |flows|
  {
    if flows != [] {
      var f := flows[0];
      TransferConserves(b, f.asset, f.from, f.to, f.amount);
      FlowsConserve(Transfer(b, f.asset, f.from, f.to, f.amount).value, flows[1..], d);
    }
  }

  lemma {:induction false} FlowsJoined(b: Balances, first: seq<Flow>, d: Balances, rest: seq<Flow>, e: Balances)
    requires Flows(b, first, d) && Flows(d, rest, e)
    ensures Flows(b, first + rest, e)
    decreases |first|
  {
    if first == [] {
      assert first + rest == rest;
    } else {
      var f := first[0];
      FlowsJoined(Transfer(b, f.asset, f.from, f.to, f.amount).value, first[1..], d, rest, e);
      assert (first + rest)[1..] == first[1..] + rest;
    }
  }

  lemma OneFlow(b: Balances, f: Flow, d: Balances)
    requires Transfer(b, f.asset, f.from, f.to, f.amount) == Success(d)
    ensures Flows(b, [f], d)
  {
    assert [f][1..] == [];
    assert Flows(d, [], d);
  }

  /** The proposal became a paid loan in this step. */
  ghost predicate LentNow(s: State, t: State, id: Id) {
    && id in t.loans.proposals && t.loans.proposals[id].status == Approved
    && !(id in s.loans.proposals && s.loans.proposals[id].status == Approved)
  }

  ghost predicate ExecutedNow(s: State, t: State, id: Id) {
    && id in t.treasury.proposals && t.treasury.proposals[id].status == Executed
    && !(id in s.treasury.proposals && s.treasury.proposals[id].status == Executed)
  }

  /** A loan pays its borrower the requested amount, in the asset it was requested in. */
  ghost function LoanFlow(s: State, t: State, id: Id): seq<Flow> {
    if LentNow(s, t, id)
    then [Flow(LoanAsset(s, id), s.config.self, t.loans.proposals[id].borrower, t.loans.proposals[id].amount)]
    else []
  }

  /** A withdrawal pays its destination its amount. */
  ghost function WithdrawalFlow(s: State, t: State, id: Id): seq<Flow> {
    if ExecutedNow(s, t, id)
    then [Flow(TreasuryAsset(s, id), s.config.self, t.treasury.proposals[id].destination,
               t.treasury.proposals[id].amount)]
    else []
  }

  ghost function ExitPayout(s: State, who: Address): int {
    Membership.ExitShare(s, who) + StakeOf(s.staking.stakes, who) + Membership.PendingYield(s.accrual, who)
  }

  /** What a borrower pays now: the requested part, or all that is owed with the late penalty. */
  ghost function Payable(s: State, id: Id, requested: Option<int>): int
    requires id in s.loans.loans
  {
    var owed := Lending.Owed(s.loans.loans[id], s.config.policy, s.now);
    if requested.Some? then requested.value else owed.totalRepayment - owed.amountRepaid
  }

  ghost function RepayFlow(s: State, who: Address, id: Id, requested: Option<int>): seq<Flow> {
    if id in s.loans.loans then [Flow(LoanAsset(s, id), who, s.config.self, Payable(s, id, requested))] else []
  }

  /** A batch pays the loans its ballots approve, one after the other. */
  ghost function BatchFlow(s: State, voter: Address, votes: seq<ProposalVote>): seq<Flow>
    decreases |votes|
  {
    if votes == [] then []
    else
      match Lending.CastLoanVote(s, voter, votes[0].proposalId, votes[0].vote)
      case Success(t) => LoanFlow(s, t, votes[0].proposalId) + BatchFlow(t, voter, votes[1..])
      case Failure(_) => []
  }

  /** The payments a successful action must make: nothing else moves. */
  ghost function Due(s: State, a: Action, t: State): seq<Flow> {
    var token, self := s.config.token, s.config.self;
    match a
    case Register(who) => [Flow(token, who, self, s.config.fee)]
    case Exit(who) => if ExitPayout(s, who) > 0 then [Flow(token, self, who, ExitPayout(s, who))] else []
    case Claim(who) => [Flow(token, self, who, Membership.PendingYield(s.accrual, who))]
    case VoteLoan(_, id, _) => LoanFlow(s, t, id)
    case VoteLoans(who, votes) => BatchFlow(s, who, votes)
    case Disburse(id) => LoanFlow(s, t, id)
    case Repay(who, id, requested) => RepayFlow(s, who, id, requested)
    case RepayInAsset(who, id, _) => RepayFlow(s, who, id, None)
    case VoteTreasury(_, id, _) => WithdrawalFlow(s, t, id)
    case RevealVote(_, id, _, _) => WithdrawalFlow(s, t, id)
    case ExecuteTreasury(id) => WithdrawalFlow(s, t, id)
    case _ => []
  }

  // ---- membership ----

  lemma MembershipPays(s: State, who: Address)
    ensures var r := Membership.RegisterStep(s, who);
            r.Success? ==> Flows(s.balances, [Flow(s.config.token, who, s.config.self, s.config.fee)], r.value.balances)
    ensures var r := Membership.ClaimStep(s, who);
            r.Success? ==>
              Flows(s.balances, [Flow(s.config.token, s.config.self, who, Membership.PendingYield(s.accrual, who))],
                    r.value.balances)
  {
    var join, claim := Membership.RegisterStep(s, who), Membership.ClaimStep(s, who);
    if join.Success? {
      OneFlow(s.balances, Flow(s.config.token, who, s.config.self, s.config.fee), join.value.balances);
    }
    if claim.Success? {
      OneFlow(s.balances, Flow(s.config.token, s.config.self, who, Membership.PendingYield(s.accrual, who)),
              claim.value.balances);
    }
  }

  lemma ExitPays(s: State, who: Address)
    requires Membership.ExitStep(s, who).Success?
    ensures Flows(s.balances, Due(s, Exit(who), s), Membership.ExitStep(s, who).value.balances)
  {
    if ExitPayout(s, who) > 0 {
      OneFlow(s.balances, Flow(s.config.token, s.config.self, who, ExitPayout(s, who)),
              Membership.ExitStep(s, who).value.balances);
    }
  }

  // ---- loans ----

  lemma DisbursalPays(s: State, p: LoanProposal)
    ensures match Lending.ApproveAndDisburse(s, p)
            case Paid(t) => Flows(s.balances,
                                  [Flow(LoanAsset(s, p.id), s.config.self, p.borrower, p.amount)], t.balances)
            case Refused(t, _) => t.balances == s.balances
            case HostTrap => true
  {
    match Lending.ApproveAndDisburse(s, p)
    case Paid(t) => OneFlow(s.balances, Flow(LoanAsset(s, p.id), s.config.self, p.borrower, p.amount), t.balances);
    case _ =>
  }

  lemma SettleLoanPays(s: State, p: LoanProposal)
    requires Lending.SettleLoan(s, p).Success? && p.status == Pending
    requires p.id in s.loans.proposals && s.loans.proposals[p.id].status != Approved
    ensures Flows(s.balances, LoanFlow(s, Lending.SettleLoan(s, p).value, p.id),
                  Lending.SettleLoan(s, p).value.balances)
  {
    var required := RequiredVotes(s.roster.active, Lending.ThresholdInForce(s.config));
    if p.forVotes >= required {
      ApprovalPays(s, p);
    } else {
      assert !LentNow(s, Lending.SettleLoan(s, p).value, p.id);
    }
  }

  lemma ApprovalPays(s: State, p: LoanProposal)
    requires Lending.SettleLoan(s, p).Success? && p.status == Pending
    requires p.forVotes >= RequiredVotes(s.roster.active, Lending.ThresholdInForce(s.config))
    requires p.id in s.loans.proposals && s.loans.proposals[p.id].status != Approved
    ensures Flows(s.balances, LoanFlow(s, Lending.SettleLoan(s, p).value, p.id),
                  Lending.SettleLoan(s, p).value.balances)
  {
    var approved := ApprovedFrom(p);
    var s1 := WithLoanProposal(s, approved);
    DisbursalPays(s1, approved);
    match Lending.ApproveAndDisburse(s1, approved)
    case Paid(s2) =>
      assert Lending.SettleLoan(s, p).value == WithLoanProposal(s2, approved.(status := Approved));
      assert LentNow(s, Lending.SettleLoan(s, p).value, p.id);
      assert LoanAsset(s1, p.id) == LoanAsset(s, p.id);
    case Refused(s2, _) =>
      assert Lending.SettleLoan(s, p).value == WithLoanProposal(s2, approved);
    case HostTrap =>
  }

  lemma LoanVotePays(s: State, voter: Address, id: Id, support: bool)
    requires LifeInv(s) && Lending.CastLoanVote(s, voter, id, support).Success?
    ensures var t := Lending.CastLoanVote(s, voter, id, support).value;
            Flows(s.balances, LoanFlow(s, t, id), t.balances)
  {
    assert ProposalOk(s.loans, s.roster.members.Keys, s.history.disbursals, id);
    var p := Lending.RefreshPhase(s.loans.proposals[id], s.now);
    var weight := VotingWeight(s, voter);
    var s1, counted := Lending.LoanBallotCast(s, id, voter, support, weight), Lending.CountedLoan(p, support, weight);
    SettleLoanPays(s1, counted);
    assert LoanFlow(s, Lending.SettleLoan(s1, counted).value, id)
             == LoanFlow(s1, Lending.SettleLoan(s1, counted).value, id);
  }

  lemma {:induction false} BatchPays(s: State, voter: Address, votes: seq<ProposalVote>)
    requires LifeInv(s) && Lending.CastLoanVotes(s, voter, votes).Success?
    ensures Flows(s.balances, BatchFlow(s, voter, votes), Lending.CastLoanVotes(s, voter, votes).value.balances)
    decreases |votes|
  {
    if votes != [] {
      var id := votes[0].proposalId;
      var t := Lending.CastLoanVote(s, voter, id, votes[0].vote).value;
      LoanVotePays(s, voter, id, votes[0].vote);
      CastLoanVoteLife(s, voter, id, votes[0].vote);
      BatchPays(t, voter, votes[1..]);
      FlowsJoined(s.balances, LoanFlow(s, t, id), t.balances, BatchFlow(t, voter, votes[1..]),
                  Lending.CastLoanVotes(t, voter, votes[1..]).value.balances);
    }
  }

  lemma DisbursePays(s: State, id: Id)
    requires LifeInv(s) && Lending.DisburseStep(s, id).Success?
    ensures var t := Lending.DisburseStep(s, id).value; Flows(s.balances, LoanFlow(s, t, id), t.balances)
  {
    assert ProposalOk(s.loans, s.roster.members.Keys, s.history.disbursals, id);
    DisbursalPays(s, s.loans.proposals[id]);
  }

  lemma RepayPays(s: State, who: Address, id: Id, requested: Option<int>)
    requires LifeInv(s) && Lending.RepayStep(s, who, id, requested).Success?
    ensures Flows(s.balances, RepayFlow(s, who, id, requested), Lending.RepayStep(s, who, id, requested).value.balances)
  {
    assert ProposalOk(s.loans, s.roster.members.Keys, s.history.disbursals, id);
    OneFlow(s.balances, Flow(LoanAsset(s, id), who, s.config.self, Payable(s, id, requested)),
            Lending.RepayStep(s, who, id, requested).value.balances);
  }

  // ---- withdrawals ----

  lemma ExecutePays(s: State, p: TreasuryProposal)
    ensures match Execute(s, p)
            case Paid(t) => Flows(s.balances,
                                  [Flow(TreasuryAsset(s, p.id), s.config.self, p.destination, p.amount)], t.balances)
            case Refused(t, _) => t.balances == s.balances
            case HostTrap => true
  {
    match Execute(s, p)
    case Paid(t) => OneFlow(s.balances, Flow(TreasuryAsset(s, p.id), s.config.self, p.destination, p.amount),
                            t.balances);
    case _ =>
  }

  lemma SettlePays(s: State, p: TreasuryProposal)
    requires Settle(s, p).Success? && p.status == Pending
    requires p.id in s.treasury.proposals && s.treasury.proposals[p.id].status != Executed
    ensures Flows(s.balances, WithdrawalFlow(s, Settle(s, p).value, p.id), Settle(s, p).value.balances)
  {
    var approved := p.(status := ApprovedPendingDisbursement);
    ExecutePays(s, approved);
    Withdrawals.SettleShape(s, p);
    if p.forVotes >= RequiredVotes(s.roster.active, p.treasuryThreshold) {
      match Execute(s, approved)
      case Paid(s1) =>
        assert Settle(s, p).value == WithTreasuryProposal(s1, approved.(status := Executed));
        assert ExecutedNow(s, Settle(s, p).value, p.id);
      case Refused(s1, _) =>
        assert Settle(s, p).value == WithTreasuryProposal(s1, approved);
      case HostTrap =>
    } else {
      assert !ExecutedNow(s, Settle(s, p).value, p.id);
    }
  }

  lemma TallyPays(s: State, p: TreasuryProposal, voter: Address, support: bool)
    requires Tally(s, p, voter, support).Success?
    requires p.id in s.treasury.proposals && s.treasury.proposals[p.id] == p
    ensures var t := Tally(s, p, voter, support).value; Flows(s.balances, WithdrawalFlow(s, t, p.id), t.balances)
  {
    var weight := VotingWeight(s, voter);
    var s1, counted := BallotCast(s, p.id, voter, support, weight), Counted(p, support, weight);
    SettlePays(s1, counted);
    assert WithdrawalFlow(s, Settle(s1, counted).value, p.id) == WithdrawalFlow(s1, Settle(s1, counted).value, p.id);
  }

  lemma VotePays(s: State, voter: Address, id: Id, support: bool)
    requires VoteStep(s, voter, id, support).Success? && s.treasury.proposals[id].id == id
    ensures var t := VoteStep(s, voter, id, support).value; Flows(s.balances, WithdrawalFlow(s, t, id), t.balances)
  {
    TallyPays(s, s.treasury.proposals[id], voter, support);
  }

  lemma RevealPays(c: Crypto, s: State, voter: Address, id: Id, support: bool, salt: Bytes32)
    requires RevealStep(c, s, voter, id, support, salt).Success? && s.treasury.proposals[id].id == id
    ensures var t := RevealStep(c, s, voter, id, support, salt).value;
            Flows(s.balances, WithdrawalFlow(s, t, id), t.balances)
  {
    var s1 := CommitmentOpened(s, id, voter, support, salt);
    TallyPays(s1, s.treasury.proposals[id], voter, support);
    var t := Tally(s1, s.treasury.proposals[id], voter, support).value;
    assert WithdrawalFlow(s, t, id) == WithdrawalFlow(s1, t, id);
  }

  lemma ExecuteApprovedPays(s: State, id: Id)
    requires ExecuteApprovedStep(s, id).Success? && s.treasury.proposals[id].id == id
    ensures var t := ExecuteApprovedStep(s, id).value; Flows(s.balances, WithdrawalFlow(s, t, id), t.balances)
  {
    ExecutePays(s, s.treasury.proposals[id]);
  }

  // ---- every step ----

  lemma MemberPays(c: Crypto, s: State, a: Action)
    requires MemberAction(a) && Attempt(c, s, a).Success?
    ensures Flows(s.balances, Due(s, a, Step(c, s, a)), Step(c, s, a).balances)
  {
    match a
    case Register(who) => MembershipPays(s, who);
    case Exit(who) => ExitPays(s, who);
    case Claim(who) => MembershipPays(s, who);
    case StakeTokens(_, _) =>
    case UnstakeTokens(_, _) =>
  }

  lemma LentPays(c: Crypto, s: State, a: Action)
    requires LendAction(a)
    requires LifeInv(s) && Attempt(c, s, a).Success?
    ensures Flows(s.balances, Due(s, a, Step(c, s, a)), Step(c, s, a).balances)
  {
    match a
    case VoteLoan(who, id, support) => LoanVotePays(s, who, id, support);
    case VoteLoans(who, votes) => BatchPays(s, who, votes);
    case Disburse(id) => DisbursePays(s, id);
  }

  lemma ServicePays(s: State, a: Action, t: State)
    requires ServiceAction(a)
    requires LifeInv(s) && AttemptService(s, a) == Success(t)
    ensures Flows(s.balances, Due(s, a, t), t.balances)
  {
    if a.MarkDefaulted? {
      DefaultMovesNothing(s, a, t);
    } else {
      RepayingAction(s, a, t);
    }
  }

  lemma DefaultMovesNothing(s: State, a: Action, t: State)
    requires a.MarkDefaulted? && AttemptService(s, a) == Success(t)
    ensures t.balances == s.balances
  {
    DefaultShape(s, a.id);
  }

  lemma RepayingAction(s: State, a: Action, t: State)
    requires a.Repay? || a.RepayInAsset?
    requires LifeInv(s) && AttemptService(s, a) == Success(t)
    ensures Flows(s.balances, RepayFlow(s, a.who, a.id, if a.Repay? then a.requested else None), t.balances)
  {
    RepayPays(s, a.who, a.id, if a.Repay? then a.requested else None);
  }

  lemma TreasuryPays(c: Crypto, s: State, a: Action, t: State)
    requires TreasuryAction(a) && AttemptTreasury(c, s, a) == Success(t)
    requires forall id :: id in s.treasury.proposals ==> s.treasury.proposals[id].id == id
    ensures Flows(s.balances, Due(s, a, t), t.balances)
  {
    if a.VoteTreasury? || a.RevealVote? || a.ExecuteTreasury? {
      PayingAction(c, s, a, t);
    } else {
      ClosingMovesNothing(c, s, a);
    }
  }

  lemma PayingAction(c: Crypto, s: State, a: Action, t: State)
    requires a.VoteTreasury? || a.RevealVote? || a.ExecuteTreasury?
    requires AttemptTreasury(c, s, a) == Success(t)
    requires forall id :: id in s.treasury.proposals ==> s.treasury.proposals[id].id == id
    ensures Flows(s.balances, WithdrawalFlow(s, t, a.id), t.balances)
  {
    match a
    case VoteTreasury(who, id, support) => VotePays(s, who, id, support);
    case RevealVote(who, id, support, salt) => RevealPays(c, s, who, id, support, salt);
    case ExecuteTreasury(id) => ExecuteApprovedPays(s, id);
  }

  lemma ClosingMovesNothing(c: Crypto, s: State, a: Action)
    requires a.Propose? || a.Commit? || a.CancelTreasury? || a.ExpireTreasury?
    requires AttemptTreasury(c, s, a).Success?
    ensures AttemptTreasury(c, s, a).value.balances == s.balances
  {
    match a
    case Propose(who, amount, asset, destination, reason, isPrivate) =>
      ProposeMovesNothing(s, who, amount, asset, destination, reason, isPrivate);
    case Commit(who, id, digest) => CloseMovesNothing(s, who, id, digest);
    case CancelTreasury(who, id) => CloseMovesNothing(s, who, id, NO_DIGEST);
    case ExpireTreasury(id) => CloseMovesNothing(s, 0, id, NO_DIGEST);
  }

  const NO_DIGEST: Bytes32 := seq(32, _ => 0)

  lemma CloseMovesNothing(s: State, who: Address, id: Id, digest: Bytes32)
    ensures var r := CommitStep(s, who, id, digest); r.Success? ==> r.value.balances == s.balances
    ensures var r := CancelStep(s, who, id); r.Success? ==> r.value.balances == s.balances
    ensures var r := ExpireStep(s, id); r.Success? ==> r.value.balances == s.balances
  {
  }

  lemma ProposeMovesNothing(s: State, who: Address, amount: int, asset: Address, destination: Address, reason: string,
                            isPrivate: bool)
    ensures var r := ProposeStep(s, who, amount, asset, destination, reason, isPrivate);
            r.Success? ==> r.value.balances == s.balances
  {
  }

  /** Every successful entrypoint makes exactly the payments due, to the parties due them, and no other;
      a vote pays only if it approves. */
  lemma StepPays(c: Crypto, s: State, a: Action)
    requires LifeInv(s) && Withdrawals.WithdrawalInv(c, s)
    requires Attempt(c, s, a).Success? && !a.OutsideTransfer?
    ensures Flows(s.balances, Due(s, a, Step(c, s, a)), Step(c, s, a).balances)
  {
    if MemberAction(a) {
      MemberPays(c, s, a);
    } else if LendAction(a) {
      LentPays(c, s, a);
    } else if DebtAction(a) {
      ServicePays(s, a, Step(c, s, a));
    } else if TreasuryAction(a) {
      OwnIds(c, s);
      TreasuryPays(c, s, a, Step(c, s, a));
    } else {
      QuietPays(c, s, a);
    }
  }

  lemma OwnIds(c: Crypto, s: State)
    requires Withdrawals.WithdrawalInv(c, s)
    ensures forall id :: id in s.treasury.proposals ==> s.treasury.proposals[id].id == id
  {
  }

  lemma QuietPays(c: Crypto, s: State, a: Action)
    requires ProposalAction(a) || (EnvironmentAction(a) && !a.OutsideTransfer?)
    ensures Step(c, s, a).balances == s.balances
  {
    if ProposalAction(a) {
      ProposalFrame(c, s, a);
    }
  }

  /** Over any run in which no tokens move outside the contract's entrypoints, the supply of every asset
      stays what it was: lending, repaying, paying out and leaving only ever move tokens. */
  lemma {:induction false} RunConserves(c: Crypto, s: State, actions: seq<Action>)
    requires LifeInv(s) && Withdrawals.WithdrawalInv(c, s)
    requires forall i :: 0 <= i < |actions| ==> !actions[i].OutsideTransfer?
    ensures SameSupply(s.balances, Run(c, s, actions).balances)
    decreases |actions|
  {
    if actions != [] {
      var s1 := Step(c, s, actions[0]);
      if Attempt(c, s, actions[0]).Success? {
        StepPays(c, s, actions[0]);
        FlowsConserve(s.balances, Due(s, actions[0], s1), s1.balances);
      }
      StepLife(c, s, actions[0]);
      Withdrawals.StepWithdrawal(c, s, actions[0]);
      RunConserves(c, s1, actions[1..]);
    }
  }
}
