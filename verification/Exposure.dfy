/** The exposure cap compounds: lending alone can shrink a treasury only geometrically. */
module Exposure {
  import opened Types
  import opened Arithmetic
  import opened Storage
  import opened TreasuryOps
  import opened System
  import opened Frames
  import opened Lifecycle
  import opened Cash
  import opened Voting
  import Ballots
  import Lending

  ghost function Pow(b: int, k: nat): int {
    if k == 0 then 1 else b * Pow(b, k - 1)
  }

  lemma {:induction false} PowPositive(b: int, k: nat)
    requires b >= 0
    ensures Pow(b, k) >= 0
  {
    if k > 0 {
      PowPositive(b, k - 1);
      MulNonNegative(b, Pow(b, k - 1));
    }
  }

  lemma {:induction false} PowAdd(b: int, j: nat, k: nat)
    ensures Pow(b, j + k) == Pow(b, j) * Pow(b, k)
  {
    if j > 0 {
      PowAdd(b, j - 1, k);
      assert Pow(b, j + k) == b * Pow(b, j - 1 + k);
      assert b * (Pow(b, j - 1) * Pow(b, k)) == (b * Pow(b, j - 1)) * Pow(b, k);
    }
  }

  /** After `k` loans under a cap of `r` basis points: `t0` was there, `tk` is left. */
  ghost predicate Shrunk(t0: int, tk: int, r: int, k: nat) {
    && tk * Pow(BASIS_POINTS, k) >= t0 * Pow(BASIS_POINTS - r, k)
    && (t0 >= 0 ==> tk >= 0)
  }

  lemma NothingLent(t: int, r: int)
    ensures Shrunk(t, t, r, 0)
  {
    assert Pow(BASIS_POINTS, 0) == 1 && Pow(BASIS_POINTS - r, 0) == 1;
  }

  lemma OneLent(t0: int, t1: int, r: int)
    requires t1 * BASIS_POINTS >= t0 * (BASIS_POINTS - r) && t1 >= 0
    ensures Shrunk(t0, t1, r, 1)
  {
    assert Pow(BASIS_POINTS, 0) == 1 && Pow(BASIS_POINTS - r, 0) == 1;
    assert Pow(BASIS_POINTS, 1) == BASIS_POINTS && Pow(BASIS_POINTS - r, 1) == BASIS_POINTS - r;
  }

  lemma ShrunkFurther(t0: int, t1: int, t2: int, r: int, j: nat, k: nat)
    requires 0 <= r <= BASIS_POINTS && Shrunk(t0, t1, r, j) && Shrunk(t1, t2, r, k)
    ensures Shrunk(t0, t2, r, j + k)
  {
    var b, q := BASIS_POINTS, BASIS_POINTS - r;
    var bj, bk, qj, qk := Pow(b, j), Pow(b, k), Pow(q, j), Pow(q, k);
    PowPositive(b, j);
    PowPositive(q, k);
    PowAdd(b, j, k);
    PowAdd(q, j, k);
    MulMonotone(t1 * qk, t2 * bk, bj);
    MulMonotone(t0 * qj, t1 * bj, qk);
    assert (t1 * qk) * bj == (t1 * bj) * qk;
    assert t2 * (bj * bk) == (t2 * bk) * bj;
    assert t0 * (qj * qk) == (t0 * qj) * qk;
  }

  lemma Chained(t0: int, t1: int, t2: int, r: int, r1: int, j: nat, k: nat, n: nat)
    requires 0 <= r <= BASIS_POINTS && r1 == r && n == j + k
    requires Shrunk(t0, t1, r, j) && Shrunk(t1, t2, r1, k)
    ensures Shrunk(t0, t2, r, n)
  {
    ShrunkFurther(t0, t1, t2, r, j, k);
  }

  // ---- one loan ----

  /** How many of the flows are in `asset`. */
  ghost function PaidIn(flows: seq<Flow>, asset: Address): nat {
    if flows == [] then 0 else (if flows[0].asset == asset then 1 else 0) + PaidIn(flows[1..], asset)
  }

  lemma {:induction false} PaidInJoined(first: seq<Flow>, rest: seq<Flow>, asset: Address)
    ensures PaidIn(first + rest, asset) == PaidIn(first, asset) + PaidIn(rest, asset)
    decreases |first|
  {
    if first == [] {
      assert first + rest == rest;
    } else {
      PaidInJoined(first[1..], rest, asset);
      assert (first + rest)[1..] == first[1..] + rest;
    }
  }

  /** What the treasury depends on, apart from the balances. */
  ghost predicate SameBase(s: State, t: State) {
    && t.config.self == s.config.self && t.config.token == s.config.token
    && t.config.policy.maxLoanToTreasuryRatio == s.config.policy.maxLoanToTreasuryRatio
    && t.staking.total == s.staking.total
  }

  /** The amount passes the checks made at disbursement. */
  ghost predicate Capped(s: State, asset: Address, amount: nat) {
    && amount <= TreasuryIn(s, asset)
    && amount * BASIS_POINTS <= TreasuryIn(s, asset) * s.config.policy.maxLoanToTreasuryRatio
  }

  lemma CapExact(amount: int, product: int)
    requires product >= 0 && amount <= TruncDiv(product, BASIS_POINTS)
    ensures amount * BASIS_POINTS <= product
  {
  }

  lemma PaidIsCapped(s: State, p: LoanProposal)
    requires Lending.ApproveAndDisburse(s, p).Paid?
    ensures Capped(s, LoanAsset(s, p.id), p.amount)
  {
    var treasury := TreasuryIn(s, LoanAsset(s, p.id));
    MulNonNegative(treasury, s.config.policy.maxLoanToTreasuryRatio);
    CapExact(p.amount, treasury * s.config.policy.maxLoanToTreasuryRatio);
  }

  /** A capped payment out of the treasury, whoever receives it. */
  lemma FlowShrinks(s: State, t: State, f: Flow, asset: Address)
    requires SameBase(s, t) && Flows(s.balances, [f], t.balances)
    requires f.from == s.config.self && f.amount >= 0 && Capped(s, f.asset, f.amount)
    ensures Shrunk(TreasuryIn(s, asset), TreasuryIn(t, asset), s.config.policy.maxLoanToTreasuryRatio,
                   PaidIn([f], asset))
  {
    var r := s.config.policy.maxLoanToTreasuryRatio;
    FlowApplied(s.balances, f, t.balances, s.config.self);
    assert [f][1..] == [];
    if f.asset == asset {
      OneLent(TreasuryIn(s, asset), TreasuryIn(t, asset), r);
    } else {
      NothingLent(TreasuryIn(s, asset), r);
    }
  }

  lemma FlowApplied(b: Balances, f: Flow, d: Balances, self: Address)
    requires Flows(b, [f], d) && f.from == self
    ensures Balance(d, f.asset, self) >= Balance(b, f.asset, self) - f.amount
    ensures forall other :: other != f.asset ==> Balance(d, other, self) == Balance(b, other, self)
  {
    assert [f][1..] == [];
    assert Transfer(b, f.asset, f.from, f.to, f.amount) == Success(d);
  }

  /** A loan flow of a step that changes only balances the treasury depends on. */
  lemma LoanFlowShrinks(s: State, t: State, id: Id, asset: Address)
    requires SameBase(s, t) && Flows(s.balances, LoanFlow(s, t, id), t.balances)
    requires LentNow(s, t, id) ==> Capped(s, LoanAsset(s, id), t.loans.proposals[id].amount)
    ensures Shrunk(TreasuryIn(s, asset), TreasuryIn(t, asset), s.config.policy.maxLoanToTreasuryRatio,
                   PaidIn(LoanFlow(s, t, id), asset))
  {
    if LentNow(s, t, id) {
      FlowShrinks(s, t, LoanFlow(s, t, id)[0], asset);
    } else {
      NothingLent(TreasuryIn(s, asset), s.config.policy.maxLoanToTreasuryRatio);
    }
  }

  lemma SettledCapped(s: State, p: LoanProposal)
    requires Lending.SettleLoan(s, p).Success? && p.status == Pending
    requires LentNow(s, Lending.SettleLoan(s, p).value, p.id)
    ensures Lending.SettleLoan(s, p).value.loans.proposals[p.id].amount == p.amount
            && Capped(s, LoanAsset(s, p.id), p.amount)
  {
    var approved := ApprovedFrom(p);
    var s1 := WithLoanProposal(s, approved);
    SettledByPaying(s, p);
    PaidIsCapped(s1, approved);
    SameTreasury(s, s1, LoanAsset(s, p.id));
  }

  lemma SameTreasury(s: State, t: State, asset: Address)
    requires t.balances == s.balances && t.config == s.config && t.staking == s.staking
    ensures TreasuryIn(t, asset) == TreasuryIn(s, asset)
  {
  }

  /** A proposal becomes a paid loan only by the payment inside its settlement. */
  lemma SettledByPaying(s: State, p: LoanProposal)
    requires Lending.SettleLoan(s, p).Success? && p.status == Pending
    requires LentNow(s, Lending.SettleLoan(s, p).value, p.id)
    ensures Lending.ApproveAndDisburse(WithLoanProposal(s, ApprovedFrom(p)), ApprovedFrom(p)).Paid?
    ensures Lending.SettleLoan(s, p).value.loans.proposals[p.id].amount == p.amount
  {
    if p.forVotes >= RequiredVotes(s.roster.active, Lending.ThresholdInForce(s.config)) {
      ApprovedByPaying(s, p);
    }
  }

  lemma ApprovedByPaying(s: State, p: LoanProposal)
    requires Lending.SettleLoan(s, p).Success? && p.status == Pending
    requires p.forVotes >= RequiredVotes(s.roster.active, Lending.ThresholdInForce(s.config))
    ensures var q := Lending.SettleLoan(s, p).value.loans.proposals[p.id];
            q.amount == p.amount
            && (Lending.ApproveAndDisburse(WithLoanProposal(s, ApprovedFrom(p)), ApprovedFrom(p)).Paid?
                <==> q.status == Approved)
  {
    var approved := ApprovedFrom(p);
    match Lending.ApproveAndDisburse(WithLoanProposal(s, approved), approved)
    case Paid(s2) => assert Lending.SettleLoan(s, p).value == WithLoanProposal(s2, approved.(status := Approved));
    case Refused(s2, _) => assert Lending.SettleLoan(s, p).value == WithLoanProposal(s2, approved);
    case HostTrap =>
  }

  /** The usual way a loan is paid: inside the vote that approves it. */
  lemma VoteShrinks(s: State, voter: Address, id: Id, support: bool, asset: Address)
    requires LifeInv(s) && Lending.CastLoanVote(s, voter, id, support).Success?
    ensures var t := Lending.CastLoanVote(s, voter, id, support).value;
            && t.config == s.config && t.staking == s.staking
            && Shrunk(TreasuryIn(s, asset), TreasuryIn(t, asset), s.config.policy.maxLoanToTreasuryRatio,
                      PaidIn(LoanFlow(s, t, id), asset))
  {
    assert ProposalOk(s.loans, s.roster.members.Keys, s.history.disbursals, id);
    var t := Lending.CastLoanVote(s, voter, id, support).value;
    CastLoanVoteFrame(s, voter, id, support);
    LoanVotePays(s, voter, id, support);
    VoteCapped(s, voter, id, support);
    LoanFlowShrinks(s, t, id, asset);
  }

  lemma VoteCapped(s: State, voter: Address, id: Id, support: bool)
    requires LifeInv(s) && Lending.CastLoanVote(s, voter, id, support).Success?
    ensures var t := Lending.CastLoanVote(s, voter, id, support).value;
            LentNow(s, t, id) ==> Capped(s, LoanAsset(s, id), t.loans.proposals[id].amount)
  {
    assert ProposalOk(s.loans, s.roster.members.Keys, s.history.disbursals, id);
    var weight := VotingWeight(s, voter);
    var s1 := Lending.LoanBallotCast(s, id, voter, support, weight);
    var counted := Lending.CountedLoan(Lending.RefreshPhase(s.loans.proposals[id], s.now), support, weight);
    Ballots.VoteIsSettle(s, voter, id, support);
    if LentNow(s1, Lending.SettleLoan(s1, counted).value, id) {
      SettledCapped(s1, counted);
      assert LoanAsset(s1, id) == LoanAsset(s, id);
      assert TreasuryIn(s1, LoanAsset(s, id)) == TreasuryIn(s, LoanAsset(s, id));
    }
  }

  lemma DisbursalShrinks(s: State, id: Id, asset: Address)
    requires LifeInv(s) && Lending.DisburseStep(s, id).Success?
    ensures var t := Lending.DisburseStep(s, id).value;
            && t.config == s.config && t.staking == s.staking
            && Shrunk(TreasuryIn(s, asset), TreasuryIn(t, asset), s.config.policy.maxLoanToTreasuryRatio,
                      PaidIn(LoanFlow(s, t, id), asset))
  {
    assert ProposalOk(s.loans, s.roster.members.Keys, s.history.disbursals, id);
    DisburseFrame(s, id);
    DisbursePays(s, id);
    PaidIsCapped(s, s.loans.proposals[id]);
    LoanFlowShrinks(s, Lending.DisburseStep(s, id).value, id, asset);
  }

  lemma {:induction false} BatchShrinks(s: State, voter: Address, votes: seq<ProposalVote>, asset: Address)
    requires LifeInv(s) && Lending.CastLoanVotes(s, voter, votes).Success?
    ensures var t := Lending.CastLoanVotes(s, voter, votes).value;
            && t.config == s.config && t.staking == s.staking
            && Shrunk(TreasuryIn(s, asset), TreasuryIn(t, asset), s.config.policy.maxLoanToTreasuryRatio,
                      PaidIn(BatchFlow(s, voter, votes), asset))
    decreases |votes|
  {
    var r := s.config.policy.maxLoanToTreasuryRatio;
    if votes == [] {
      NothingLent(TreasuryIn(s, asset), r);
    } else {
      var id := votes[0].proposalId;
      var s1 := Lending.CastLoanVote(s, voter, id, votes[0].vote).value;
      VoteShrinks(s, voter, id, votes[0].vote, asset);
      CastLoanVoteLife(s, voter, id, votes[0].vote);
      BatchShrinks(s1, voter, votes[1..], asset);
      PaidInJoined(LoanFlow(s, s1, id), BatchFlow(s1, voter, votes[1..]), asset);
      Chained(TreasuryIn(s, asset), TreasuryIn(s1, asset),
              TreasuryIn(Lending.CastLoanVotes(s1, voter, votes[1..]).value, asset), r,
              s1.config.policy.maxLoanToTreasuryRatio,
              PaidIn(LoanFlow(s, s1, id), asset), PaidIn(BatchFlow(s1, voter, votes[1..]), asset),
              PaidIn(BatchFlow(s, voter, votes), asset));
    }
  }

  // ---- runs ----

  /** A step that moves no tokens and no stake, and leaves the cap alone. */
  ghost predicate Quiet(s: State, t: State) { SameBase(s, t) && t.balances == s.balances }

  /** Every action of the run lends, or moves nothing the treasury depends on. */
  ghost predicate OnlyLending(c: Crypto, s: State, actions: seq<Action>)
    decreases |actions|
  {
    actions == [] ||
    ((LendAction(actions[0]) || Quiet(s, Step(c, s, actions[0])))
     && OnlyLending(c, Step(c, s, actions[0]), actions[1..]))
  }

  /** Loans in `asset` that one action pays. */
  ghost function PaidBy(c: Crypto, s: State, a: Action, asset: Address): nat {
    if LendAction(a) && Attempt(c, s, a).Success? then PaidIn(Due(s, a, Attempt(c, s, a).value), asset) else 0
  }

  ghost function LoansPaid(c: Crypto, s: State, actions: seq<Action>, asset: Address): nat
    decreases |actions|
  {
    if actions == [] then 0
    else PaidBy(c, s, actions[0], asset) + LoansPaid(c, Step(c, s, actions[0]), actions[1..], asset)
  }

  lemma LendingShrinks(c: Crypto, s: State, a: Action, asset: Address)
    requires LifeInv(s) && LendAction(a) && Attempt(c, s, a).Success?
    ensures var t := Attempt(c, s, a).value;
            && SameBase(s, t)
            && Shrunk(TreasuryIn(s, asset), TreasuryIn(t, asset), s.config.policy.maxLoanToTreasuryRatio,
                      PaidIn(Due(s, a, t), asset))
  {
    match a
    case VoteLoan(who, id, support) => VoteShrinks(s, who, id, support, asset);
    case VoteLoans(who, votes) => BatchShrinks(s, who, votes, asset);
    case Disburse(id) => DisbursalShrinks(s, id, asset);
  }

  lemma StepShrinks(c: Crypto, s: State, a: Action, asset: Address)
    requires LifeInv(s) && (LendAction(a) || Quiet(s, Step(c, s, a)))
    ensures SameBase(s, Step(c, s, a))
    ensures Shrunk(TreasuryIn(s, asset), TreasuryIn(Step(c, s, a), asset), s.config.policy.maxLoanToTreasuryRatio,
                   PaidBy(c, s, a, asset))
  {
    if LendAction(a) && Attempt(c, s, a).Success? {
      LendingShrinks(c, s, a, asset);
    } else {
      NothingLent(TreasuryIn(s, asset), s.config.policy.maxLoanToTreasuryRatio);
    }
  }

  lemma FirstOfRun(c: Crypto, s: State, actions: seq<Action>, asset: Address)
    requires actions != [] && OnlyLending(c, s, actions)
    ensures var s1 := Step(c, s, actions[0]);
            && (LendAction(actions[0]) || Quiet(s, s1)) && OnlyLending(c, s1, actions[1..])
            && Run(c, s, actions) == Run(c, s1, actions[1..])
            && LoansPaid(c, s, actions, asset)
                 == PaidBy(c, s, actions[0], asset) + LoansPaid(c, s1, actions[1..], asset)
  {
  }

  /** Any run that lends, inside votes or by paying out parked loans, and otherwise moves nothing, leaves
      after `k` loans in an asset under a cap of `r` basis points at least the `k`-th power of the uncapped
      share of what was there; so lending alone never makes a treasury negative. */
  lemma {:induction false} CapCompounds(c: Crypto, s: State, actions: seq<Action>, asset: Address)
    requires LifeInv(s) && OnlyLending(c, s, actions)
    ensures Shrunk(TreasuryIn(s, asset), TreasuryIn(Run(c, s, actions), asset),
                   s.config.policy.maxLoanToTreasuryRatio, LoansPaid(c, s, actions, asset))
    decreases |actions|
  {
    var r := s.config.policy.maxLoanToTreasuryRatio;
    if actions == [] {
      NothingLent(TreasuryIn(s, asset), r);
    } else {
      var s1 := Step(c, s, actions[0]);
      FirstOfRun(c, s, actions, asset);
      StepShrinks(c, s, actions[0], asset);
      StepLife(c, s, actions[0]);
      CapCompounds(c, s1, actions[1..], asset);
      Chained(TreasuryIn(s, asset), TreasuryIn(s1, asset), TreasuryIn(Run(c, s, actions), asset), r,
              s1.config.policy.maxLoanToTreasuryRatio, PaidBy(c, s, actions[0], asset),
              LoansPaid(c, s1, actions[1..], asset),
              LoansPaid(c, s, actions, asset));
    }
  }

  // ---- which actions are quiet ----

  /** Actions that move no tokens and no stake whatever the state. */
  predicate NeverPays(a: Action) {
    || a.Tick? || a.Delegate? || ProposalAction(a) || a.MarkDefaulted?
    || a.Propose? || a.Commit? || a.CancelTreasury? || a.ExpireTreasury?
  }

  /** They are quiet, and so is an administrative change exactly when it keeps the cap. */
  lemma NeverPaysIsQuiet(c: Crypto, s: State, a: Action)
    ensures NeverPays(a) ==> Quiet(s, Step(c, s, a))
    ensures a.Govern? ==>
              (Quiet(s, Step(c, s, a)) <==> a.policy.maxLoanToTreasuryRatio == s.config.policy.maxLoanToTreasuryRatio)
  {
    if ProposalAction(a) {
      ProposalFrame(c, s, a);
    } else if TreasuryAction(a) {
      if NeverPays(a) {
        ClosingIsQuiet(c, s, a);
      }
    } else if a.MarkDefaulted? {
      DefaultIsQuiet(c, s, a);
    } else if a.Tick? || a.Delegate? {
      ClockIsQuiet(c, s, a);
    }
  }

  lemma ClosingIsQuiet(c: Crypto, s: State, a: Action)
    requires TreasuryAction(a) && NeverPays(a)
    ensures Quiet(s, Step(c, s, a))
  {
    TreasuryFrame(c, s, a);
    if Attempt(c, s, a).Success? {
      ClosingMovesNothing(c, s, a);
    }
  }

  lemma DefaultIsQuiet(c: Crypto, s: State, a: Action)
    requires a.MarkDefaulted?
    ensures Quiet(s, Step(c, s, a))
  {
    if Attempt(c, s, a).Success? {
      DefaultShape(s, a.id);
    }
  }

  lemma ClockIsQuiet(c: Crypto, s: State, a: Action)
    requires a.Tick? || a.Delegate?
    ensures Quiet(s, Step(c, s, a))
  {
    match a
    case Tick(_) =>
    case Delegate(who, delegatee) => DelegateFrame(s, who, delegatee); DelegateMovesNothing(s, who, delegatee);
  }

  lemma DelegateMovesNothing(s: State, who: Address, delegatee: Address)
    ensures var r := DelegateStep(s, who, delegatee); r.Success? ==> Quiet(s, r.value)
  {
  }
}
