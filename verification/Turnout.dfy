/** The stakes that later ballots may be cast at: what runs of the contract keep within, and what they reach. */
module Turnout {
  import opened Types
  import opened Storage
  import opened TreasuryOps
  import opened System
  import opened Frames
  import opened Voting
  import opened Books
  import opened Reachability
  import opened EarlyRejection
  import Lending
  import Lifecycle
  import LoanFlags
  import Membership

  // ---- no run exceeds them ----

  ghost predicate StatusesKept(ms: map<Address, Member>, ns: map<Address, Member>) {
    ns.Keys == ms.Keys && forall a :: a in ms ==> ns[a].status == ms[a].status
  }

  lemma LentStatuses(s: State, t: State, id: Id)
    requires LoanFlags.RecordsAfter(s, t, id)
    ensures StatusesKept(s.roster.members, t.roster.members)
  {
  }

  lemma {:induction false} BatchStatuses(s: State, voter: Address, votes: seq<ProposalVote>)
    requires Lifecycle.LifeInv(s) && Lending.CastLoanVotes(s, voter, votes).Success?
    ensures StatusesKept(s.roster.members, Lending.CastLoanVotes(s, voter, votes).value.roster.members)
    decreases |votes|
  {
    if votes != [] {
      var id := votes[0].proposalId;
      LoanFlags.VoteRecords(s, voter, id, votes[0].vote);
      LentStatuses(s, Lending.CastLoanVote(s, voter, id, votes[0].vote).value, id);
      Lifecycle.CastLoanVoteLife(s, voter, id, votes[0].vote);
      BatchStatuses(Lending.CastLoanVote(s, voter, id, votes[0].vote).value, voter, votes[1..]);
    }
  }

  lemma LendStatuses(s: State, a: Action)
    requires LendAction(a) && Lifecycle.LifeInv(s) && AttemptLend(s, a).Success?
    ensures StatusesKept(s.roster.members, AttemptLend(s, a).value.roster.members)
  {
    match a
    case VoteLoan(who, id, support) =>
      LoanFlags.VoteRecords(s, who, id, support);
      LentStatuses(s, AttemptLend(s, a).value, id);
    case VoteLoans(who, votes) => BatchStatuses(s, who, votes);
    case Disburse(id) =>
      LoanFlags.DisburseRecords(s, id);
      LentStatuses(s, AttemptLend(s, a).value, id);
  }

  lemma RepayStatuses(s: State, who: Address, id: Id, requested: Option<int>)
    requires Lending.RepayStep(s, who, id, requested).Success?
    ensures StatusesKept(s.roster.members, Lending.RepayStep(s, who, id, requested).value.roster.members)
  {
    var owed := Lending.Owed(s.loans.loans[id], s.config.policy, s.now);
    var amount := if requested.Some? then requested.value else owed.totalRepayment - owed.amountRepaid;
    Lifecycle.RepayIsPayment(s, who, id, requested);
    Lifecycle.PaymentShape(s, owed, amount);
  }

  lemma ServiceStatuses(s: State, a: Action)
    requires ServiceAction(a) && AttemptService(s, a).Success?
    ensures StatusesKept(s.roster.members, AttemptService(s, a).value.roster.members)
  {
    match a
    case Repay(who, id, requested) => RepayStatuses(s, who, id, requested);
    case RepayInAsset(who, id, _) => RepayStatuses(s, who, id, None);
    case MarkDefaulted(id) => DefaultShape(s, id);
  }

  /** Only active members add to their stakes, and nobody becomes active without registering. */
  ghost predicate Within(s: State, t: State) {
    && ActiveSet(t.roster.members) <= ActiveSet(s.roster.members)
    && forall m :: m !in ActiveSet(s.roster.members) ==>
         StakeOf(t.staking.stakes, m) <= StakeOf(s.staking.stakes, m)
  }

  lemma MemberWithin(s: State, a: Action)
    requires MemberAction(a) && !a.Register? && AttemptMember(s, a).Success?
    ensures Within(s, AttemptMember(s, a).value)
  {
    match a
    case Exit(who) => assert AttemptMember(s, a).value.roster == Membership.Departed(s.roster, who);
    case Claim(who) => ClaimShape(s, who);
    case StakeTokens(who, amount) => StakeShape(s, who, amount);
    case UnstakeTokens(who, amount) => UnstakeShape(s, who, amount);
  }

  lemma DebtWithin(c: Crypto, s: State, a: Action)
    requires DebtAction(a) && Lifecycle.LifeInv(s)
    ensures Within(s, Step(c, s, a))
  {
    DebtFrame(c, s, a);
    if Attempt(c, s, a).Success? {
      if LendAction(a) {
        LendStatuses(s, a);
      } else {
        ServiceStatuses(s, a);
      }
    }
  }

  lemma StepWithin(c: Crypto, s: State, a: Action)
    requires !a.Register? && Lifecycle.LifeInv(s)
    ensures Within(s, Step(c, s, a))
  {
    if MemberAction(a) {
      if Attempt(c, s, a).Success? {
        MemberWithin(s, a);
      }
    } else if DebtAction(a) {
      DebtWithin(c, s, a);
    } else if TreasuryAction(a) {
      TreasuryFrame(c, s, a);
    } else if ProposalAction(a) {
      ProposalFrame(c, s, a);
    } else {
      EnvironmentFrame(c, s, a);
    }
  }

  /** Whatever happens while nobody registers, stakes stay attainable. */
  lemma {:induction false} RunAttainable(c: Crypto, s: State, actions: seq<Action>)
    requires Lifecycle.LifeInv(s) && forall i :: 0 <= i < |actions| ==> !actions[i].Register?
    ensures ActiveSet(Run(c, s, actions).roster.members) <= ActiveSet(s.roster.members)
    ensures Attainable(ElectorateOf(s), Run(c, s, actions).staking.stakes)
    decreases |actions|
  {
    if actions != [] {
      StepWithin(c, s, actions[0]);
      Lifecycle.StepLife(c, s, actions[0]);
      RunAttainable(c, Step(c, s, actions[0]), actions[1..]);
    }
  }

  // ---- a run reaches them ----

  /** Members stake in turn, and nothing else happens. */
  lemma {:induction false} StakingUp(c: Crypto, s: State, todo: set<Address>) returns (actions: seq<Action>)
    requires !s.config.paused && todo <= ActiveSet(s.roster.members)
    ensures forall i :: 0 <= i < |actions| ==> actions[i].StakeTokens?
    ensures var k := Run(c, s, actions).staking;
            && Run(c, s, actions) == s.(staking := k)
            && forall a :: StakeOf(k.stakes, a) == StakeOf(s.staking.stakes, a) + if a in todo then 2500 else 0
    decreases |todo|
  {
    if todo == {} {
      actions := [];
    } else {
      var w :| w in todo;
      var s1 := Step(c, s, StakeTokens(w, 2500));
      OneStakes(c, s, w);
      var rest := StakingUp(c, s1, todo - {w});
      actions := [StakeTokens(w, 2500)] + rest;
      assert actions[1..] == rest;
    }
  }

  lemma OneStakes(c: Crypto, s: State, w: Address)
    requires !s.config.paused && w in ActiveSet(s.roster.members)
    ensures var t := Step(c, s, StakeTokens(w, 2500));
            && t == s.(staking := t.staking)
            && forall a :: StakeOf(t.staking.stakes, a) == StakeOf(s.staking.stakes, a) + if a == w then 2500 else 0
  {
  }

  /** From any reachable state members can stake until each ballot weighs the most it can come to weigh. */
  lemma FullTurnoutReached(c: Crypto, s: State) returns (actions: seq<Action>)
    requires Inv(c, s) && !s.config.paused
    ensures forall i :: 0 <= i < |actions| ==> actions[i].StakeTokens?
    ensures var t := Run(c, s, actions);
            && t == s.(staking := t.staking)
            && Attainable(ElectorateOf(s), t.staking.stakes)
            && forall w :: VotingWeight(t, w) == TopWeight(ElectorateOf(s), w)
  {
    actions := StakingUp(c, s, ActiveSet(s.roster.members));
    var t := Run(c, s, actions);
    var e := ElectorateOf(s);
    assert FullyStaked(e, t.staking.stakes);
    forall w
      ensures VotingWeight(t, w) == TopWeight(e, w)
    {
      WeightInFull(e, t.staking.stakes, w);
    }
  }
}
