/** Runs from initialisation in which a withdrawal and a loan are rejected although the votes they needed were
    still to come: twelve of fourteen members delegate to another one and then cast their own, empty ballots. */
module RejectionRun {
  import opened Types
  import opened Arithmetic
  import opened History
  import opened Storage
  import opened TreasuryOps
  import opened System
  import opened Reachability
  import opened Voting
  import Ballots
  import Books
  import EarlyRejection
  import Lending
  import Membership
  import Pricing

  const POLICY: Policy := RawPolicy(0, 1, 1, 0, 0, 0, 10_000, 0, 0, 1, 1, 10_000, 0)

  const SETUP := Config(20, 21, 1, POLICY, 10_000, false, {})

  /** Fourteen wallets hold the fee; the contract is account 20 and its token is 21. */
  function Start(): State {
    State(0, SETUP, NO_MEMBERS, Staking(map[], 0, map[]), Accrual(0, 0, map[]), map[], NO_LOANS, NO_WITHDRAWALS, map[],
          map i: Address | 0 <= i < 14 :: (21, i) := 1, EMPTY_HISTORY)
  }

  function Numbers(n: nat): seq<Address> { seq(n, i => i) }

  function Joining(n: nat): seq<Action> {
    if n == 0 then [] else Joining(n - 1) + [Register(n - 1)]
  }

  function Delegating(n: nat): seq<Action> {
    if n == 0 then Joining(14) else Delegating(n - 1) + [Delegate(n, 0)]
  }

  const PROPOSAL := Propose(0, 1, 21, 22, "a", false)
  const REQUEST := RequestLoan(13, 1, 21, None)

  /** A withdrawal is proposed, and the accounts from 1 to `n` vote. */
  function Balloting(n: nat): seq<Action> {
    if n == 0 then Delegating(12) + [PROPOSAL] else Balloting(n - 1) + [VoteTreasury(n, 0, true)]
  }

  /** The same for a loan that account 13 has asked for. */
  function LoanBalloting(n: nat): seq<Action> {
    if n == 0 then Delegating(12) + [REQUEST] + [Tick(1)] else LoanBalloting(n - 1) + [VoteLoan(n, 0, true)]
  }

  // ---- the states along the way ----

  /** `n` members have joined, and the accounts from 1 to `k` have delegated to account 0. */
  ghost predicate Crew(s: State, now: nat, n: nat, k: nat) {
    && s.now == now && s.config == SETUP && s.staking == Staking(map[], 0, map[])
    && s.roster.list == Numbers(n) && s.roster.active == n
    && (forall a: Address :: a in s.roster.members <==> a < n)
    && (forall a :: a in s.roster.members ==> Fresh(s.roster.members[a]))
    && (forall a :: a in s.delegations <==> 1 <= a <= k)
    && (forall a :: a in s.delegations ==> s.delegations[a] == 0)
    && Balance(s.balances, 21, 20) == n
    && (forall a: Address :: n <= a < 14 ==> Balance(s.balances, 21, a) == 1)
  }

  predicate Fresh(m: Member) {
    m.status == ActiveMember && !m.hasActiveLoan && m.joinTime == 0 && m.lastLoanTime == 0
  }

  ghost predicate NothingAsked(s: State) {
    s.loans == NO_LOANS && s.treasury == NO_WITHDRAWALS
  }

  lemma Joined(s: State, n: nat)
    requires Crew(s, 0, n, 0) && n < 14 && NothingAsked(s)
    ensures Membership.RegisterStep(s, n).Success?
    ensures var t := Membership.RegisterStep(s, n).value; Crew(t, 0, n + 1, 0) && NothingAsked(t)
  {
    var t := Membership.RegisterStep(s, n).value;
    assert Numbers(n) + [n] == Numbers(n + 1);
    assert Balance(s.balances, 21, n) == 1;
    forall a: Address | n + 1 <= a < 14
      ensures Balance(t.balances, 21, a) == 1
    {
      assert Balance(s.balances, 21, a) == 1;
    }
  }

  lemma NobodyYet(s: State)
    requires s == Start()
    ensures Crew(s, 0, 0, 0) && NothingAsked(s)
  {
    assert s.roster.members == map[] && s.delegations == map[];
    assert Numbers(0) == [];
  }

  lemma Delegated(s: State, k: nat)
    requires Crew(s, 0, 14, k) && k < 12 && NothingAsked(s)
    ensures DelegateStep(s, k + 1, 0).Success?
    ensures var t := DelegateStep(s, k + 1, 0).value; Crew(t, 0, 14, k + 1) && NothingAsked(t)
  {
  }

  /** Whoever has delegated casts an empty ballot. */
  lemma EmptyHanded(s: State, now: nat, voter: Address)
    requires Crew(s, now, 14, 12) && 1 <= voter <= 12
    ensures VotingWeight(s, voter) == 0 && IsActive(s.roster, voter)
  {
    assert voter in s.roster.members;
  }

  // ---- the withdrawal ----

  function Withdrawal(cast: nat): TreasuryProposal {
    TreasuryProposal(0, 0, 1, 22, "a", 0, if cast < 12 then Pending else Rejected, 0, 0, cast, 1, 10_000, false)
  }

  /** The withdrawal after the empty ballots of the accounts from 1 to `cast`. */
  ghost predicate Tallied(b: TreasuryBook, cast: nat) {
    && b.proposals == map[0 := Withdrawal(cast)] && b.assets == map[] && b.commits == map[]
    && (forall v :: v in b.voted <==> v.0 == 0 && 1 <= v.1 <= cast)
  }

  lemma Proposed(s: State)
    requires Crew(s, 0, 14, 12) && NothingAsked(s)
    ensures ProposeStep(s, 0, 1, 21, 22, "a", false).Success?
    ensures var t := ProposeStep(s, 0, 1, 21, 22, "a", false).value; Crew(t, 0, 14, 12) && Tallied(t.treasury, 0)
  {
    assert TreasuryIn(s, 21) == 14;
    assert ReservedCommitments(s.loans, 21, 21, 0) == 0;
  }

  lemma EmptyBallot(s: State, cast: nat)
    requires Crew(s, 0, 14, 12) && Tallied(s.treasury, cast) && cast < 12
    ensures VoteStep(s, cast + 1, 0, true).Success?
    ensures var t := VoteStep(s, cast + 1, 0, true).value; Crew(t, 0, 14, 12) && Tallied(t.treasury, cast + 1)
  {
    var voter := cast + 1;
    var p := Withdrawal(cast);
    EmptyHanded(s, 0, voter);
    assert RequiredVotes(14, 10_000) == 14;
    var counted := p.(votesCast := cast + 1);
    assert Counted(p, true, 0) == counted;
    var s1 := BallotCast(s, 0, voter, true, 0);
    assert VoteStep(s, voter, 0, true) == Settle(s1, counted);
    assert Settle(s1, counted) == Success(WithTreasuryProposal(s1, Withdrawal(cast + 1)));
    assert map[0 := p][0 := Withdrawal(cast + 1)] == map[0 := Withdrawal(cast + 1)];
  }

  // ---- the loan ----

  function Request(cast: nat): LoanProposal {
    LoanProposal(0, 13, 1, 0, 1, 1, 0, 1,
                 if cast == 0 then EditingPhase else if cast < 12 then VotingPhase else ExpiredPhase,
                 if cast < 12 then Pending else Rejected, 0, 0, cast, 1, None, None)
  }

  /** The loan after the empty ballots of the accounts from 1 to `cast`. */
  ghost predicate LoanTallied(b: LoanBook, cast: nat) {
    && b.proposals == map[0 := Request(cast)]
    && (forall v :: v in b.voted <==> v.0 == 0 && 1 <= v.1 <= cast)
  }

  lemma Requested(s: State)
    requires Crew(s, 0, 14, 12) && NothingAsked(s)
    ensures Lending.RequestStep(s, 13, 1, 21, None).Success?
    ensures var t := Lending.RequestStep(s, 13, 1, 21, None).value; Crew(t, 0, 14, 12) && LoanTallied(t.loans, 0)
  {
    assert TreasuryIn(s, 21) == 14;
    assert OpenCount(s, 13) == 0;
    Pricing.RateBounds(POLICY, 1, 14);
    assert 13 in s.roster.members;
    assert Lending.NewProposal(s, 13, 1, 21, None) == Request(0);
  }

  lemma Ticked(s: State)
    requires Crew(s, 0, 14, 12) && LoanTallied(s.loans, 0)
    ensures TickStep(s, 1).Success?
    ensures var t := TickStep(s, 1).value; Crew(t, 1, 14, 12) && LoanTallied(t.loans, 0)
  {
  }

  lemma EmptyLoanBallot(s: State, cast: nat)
    requires Crew(s, 1, 14, 12) && LoanTallied(s.loans, cast) && cast < 12
    ensures Lending.LoanVoteStep(s, cast + 1, 0, true).Success?
    ensures var t := Lending.LoanVoteStep(s, cast + 1, 0, true).value;
            Crew(t, 1, 14, 12) && LoanTallied(t.loans, cast + 1)
  {
    var voter := cast + 1;
    var p := Request(cast).(phase := VotingPhase);
    EmptyHanded(s, 1, voter);
    assert Lending.RefreshPhase(Request(cast), 1) == p;
    assert RequiredVotes(14, 10_000) == 14;
    var counted := p.(votesCast := cast + 1);
    assert Lending.CountedLoan(p, true, 0) == counted;
    var s1 := Lending.LoanBallotCast(s, 0, voter, true, 0);
    assert Lending.LoanVoteStep(s, voter, 0, true) == Lending.SettleLoan(s1, counted);
    assert Lending.SettleLoan(s1, counted) == Success(WithLoanProposal(s1, Request(cast + 1)));
    assert map[0 := Request(cast)][0 := Request(cast + 1)] == map[0 := Request(cast + 1)];
  }

  // ---- the runs ----

  lemma Joins(c: Crypto, s: State, actions: seq<Action>, t: State, who: Address) returns (u: State)
    requires t == Run(c, s, actions) && Membership.RegisterStep(t, who).Success?
    ensures u == Run(c, s, actions + [Register(who)]) == Membership.RegisterStep(t, who).value
  {
    u := Membership.RegisterStep(t, who).value;
    Next(c, s, actions, Register(who), t, u);
  }

  lemma Delegates(c: Crypto, s: State, actions: seq<Action>, t: State, who: Address) returns (u: State)
    requires t == Run(c, s, actions) && DelegateStep(t, who, 0).Success?
    ensures u == Run(c, s, actions + [Delegate(who, 0)]) == DelegateStep(t, who, 0).value
  {
    u := DelegateStep(t, who, 0).value;
    Next(c, s, actions, Delegate(who, 0), t, u);
  }

  lemma Proposes(c: Crypto, s: State, actions: seq<Action>, t: State) returns (u: State)
    requires t == Run(c, s, actions) && ProposeStep(t, 0, 1, 21, 22, "a", false).Success?
    ensures u == Run(c, s, actions + [PROPOSAL]) == ProposeStep(t, 0, 1, 21, 22, "a", false).value
  {
    u := ProposeStep(t, 0, 1, 21, 22, "a", false).value;
    Next(c, s, actions, PROPOSAL, t, u);
  }

  lemma Votes(c: Crypto, s: State, actions: seq<Action>, t: State, who: Address) returns (u: State)
    requires t == Run(c, s, actions) && VoteStep(t, who, 0, true).Success?
    ensures u == Run(c, s, actions + [VoteTreasury(who, 0, true)]) == VoteStep(t, who, 0, true).value
  {
    u := VoteStep(t, who, 0, true).value;
    Next(c, s, actions, VoteTreasury(who, 0, true), t, u);
  }

  lemma Requests(c: Crypto, s: State, actions: seq<Action>, t: State) returns (u: State)
    requires t == Run(c, s, actions) && Lending.RequestStep(t, 13, 1, 21, None).Success?
    ensures u == Run(c, s, actions + [REQUEST]) == Lending.RequestStep(t, 13, 1, 21, None).value
  {
    u := Lending.RequestStep(t, 13, 1, 21, None).value;
    Next(c, s, actions, REQUEST, t, u);
  }

  lemma Ticks(c: Crypto, s: State, actions: seq<Action>, t: State) returns (u: State)
    requires t == Run(c, s, actions) && TickStep(t, 1).Success?
    ensures u == Run(c, s, actions + [Tick(1)]) == TickStep(t, 1).value
  {
    u := TickStep(t, 1).value;
    Next(c, s, actions, Tick(1), t, u);
  }

  lemma VotesOnLoan(c: Crypto, s: State, actions: seq<Action>, t: State, who: Address) returns (u: State)
    requires t == Run(c, s, actions) && Lending.LoanVoteStep(t, who, 0, true).Success?
    ensures u == Run(c, s, actions + [VoteLoan(who, 0, true)]) == Lending.LoanVoteStep(t, who, 0, true).value
  {
    u := Lending.LoanVoteStep(t, who, 0, true).value;
    Next(c, s, actions, VoteLoan(who, 0, true), t, u);
  }

  lemma {:induction false} ReachedJoined(c: Crypto, s: State, n: nat) returns (t: State)
    requires s == Start() && n <= 14
    ensures t == Run(c, s, Joining(n)) && Crew(t, 0, n, 0) && NothingAsked(t)
  {
    if n == 0 {
      NobodyYet(s);
      t := s;
    } else {
      var u := ReachedJoined(c, s, n - 1);
      Joined(u, n - 1);
      t := Joins(c, s, Joining(n - 1), u, n - 1);
    }
  }

  lemma {:induction false} ReachedDelegated(c: Crypto, s: State, k: nat) returns (t: State)
    requires s == Start() && k <= 12
    ensures t == Run(c, s, Delegating(k)) && Crew(t, 0, 14, k) && NothingAsked(t)
  {
    if k == 0 {
      t := ReachedJoined(c, s, 14);
    } else {
      var u := ReachedDelegated(c, s, k - 1);
      Delegated(u, k - 1);
      t := Delegates(c, s, Delegating(k - 1), u, k);
    }
  }

  lemma ReachedProposed(c: Crypto, s: State) returns (t: State)
    requires s == Start()
    ensures t == Run(c, s, Balloting(0)) && Crew(t, 0, 14, 12) && Tallied(t.treasury, 0)
  {
    var u := ReachedDelegated(c, s, 12);
    Proposed(u);
    t := Proposes(c, s, Delegating(12), u);
  }

  lemma {:induction false} ReachedVoted(c: Crypto, s: State, cast: nat) returns (t: State)
    requires s == Start() && cast <= 12
    ensures t == Run(c, s, Balloting(cast)) && Crew(t, 0, 14, 12) && Tallied(t.treasury, cast)
  {
    if cast == 0 {
      t := ReachedProposed(c, s);
    } else {
      var u := ReachedVoted(c, s, cast - 1);
      t := NextBallot(c, s, Balloting(cast - 1), u, cast);
    }
  }

  lemma NextBallot(c: Crypto, s: State, actions: seq<Action>, u: State, cast: nat) returns (t: State)
    requires u == Run(c, s, actions) && 1 <= cast <= 12 && Crew(u, 0, 14, 12) && Tallied(u.treasury, cast - 1)
    ensures t == Run(c, s, actions + [VoteTreasury(cast, 0, true)])
    ensures Crew(t, 0, 14, 12) && Tallied(t.treasury, cast)
  {
    EmptyBallot(u, cast - 1);
    t := Votes(c, s, actions, u, cast);
  }

  lemma ReachedRequested(c: Crypto, s: State) returns (t: State)
    requires s == Start()
    ensures t == Run(c, s, LoanBalloting(0)) && Crew(t, 1, 14, 12) && LoanTallied(t.loans, 0)
  {
    var u := ReachedDelegated(c, s, 12);
    Requested(u);
    var v := Requests(c, s, Delegating(12), u);
    Ticked(v);
    t := Ticks(c, s, Delegating(12) + [REQUEST], v);
  }

  lemma {:induction false} ReachedLoanVoted(c: Crypto, s: State, cast: nat) returns (t: State)
    requires s == Start() && cast <= 12
    ensures t == Run(c, s, LoanBalloting(cast)) && Crew(t, 1, 14, 12) && LoanTallied(t.loans, cast)
  {
    if cast == 0 {
      t := ReachedRequested(c, s);
    } else {
      var u := ReachedLoanVoted(c, s, cast - 1);
      t := NextLoanBallot(c, s, LoanBalloting(cast - 1), u, cast);
    }
  }

  lemma NextLoanBallot(c: Crypto, s: State, actions: seq<Action>, u: State, cast: nat) returns (t: State)
    requires u == Run(c, s, actions) && 1 <= cast <= 12 && Crew(u, 1, 14, 12) && LoanTallied(u.loans, cast - 1)
    ensures t == Run(c, s, actions + [VoteLoan(cast, 0, true)])
    ensures Crew(t, 1, 14, 12) && LoanTallied(t.loans, cast)
  {
    EmptyLoanBallot(u, cast - 1);
    t := VotesOnLoan(c, s, actions, u, cast);
  }

  // ---- what the runs show ----

  lemma {:induction false} TwelveHanded(n: nat, d: map<Address, Address>, k: map<Address, int>)
    requires n >= 1 && (forall a :: a in d <==> 1 <= a <= 12) && (forall a :: a in d ==> d[a] == 0)
    requires forall a :: a in d ==> StakeOf(k, a) == 0
    ensures HandedTo(Numbers(n), d, k, 0) == Min(n - 1, 12)
  {
    var list := Numbers(n);
    assert list[..n - 1] == Numbers(n - 1) && list[n - 1] == n - 1;
    if n == 1 {
      assert HandedTo(Numbers(0), d, k, 0) == 0;
    } else {
      TwelveHanded(n - 1, d, k);
    }
  }

  lemma {:induction false} NoneHanded(n: nat, d: map<Address, Address>, k: map<Address, int>)
    requires forall a :: a in d ==> d[a] == 0
    ensures HandedTo(Numbers(n), d, k, 13) == 0
  {
    if n > 0 {
      assert Numbers(n)[..n - 1] == Numbers(n - 1);
      NoneHanded(n - 1, d, k);
    }
  }

  /** The twelfth ballot rejects the withdrawal in a reachable state, and yet the two members who have not
      voted carry exactly the fourteen votes it needs. */
  lemma DelegationDefeatsEarlyRejection(c: Crypto)
    ensures
      var t := Run(c, Start(), Balloting(12));
      && Reachable(c, t)
      && 0 in t.treasury.proposals && t.treasury.proposals[0].status == Rejected
      && EarlyRejection.WithdrawalVoters(c, t, 0) == {0, 13}
      && t.treasury.proposals[0].forVotes + VotingWeight(t, 0) + VotingWeight(t, 13)
         == RequiredVotes(t.roster.active, t.treasury.proposals[0].treasuryThreshold) == 14
      && !EarlyRejection.WithdrawalOutOfReach(c, t, 0)
  {
    var t := ReachedVoted(c, Start(), 12);
    assert Initial(Start());
    LastTwoDecide(c, t);
  }

  lemma LastTwoDecide(c: Crypto, t: State)
    requires Crew(t, 0, 14, 12) && Tallied(t.treasury, 12)
    ensures VotingWeight(t, 0) == 13 && VotingWeight(t, 13) == 1 && RequiredVotes(14, 10_000) == 14
    ensures EarlyRejection.WithdrawalVoters(c, t, 0) == {0, 13}
    ensures !EarlyRejection.WithdrawalOutOfReach(c, t, 0)
  {
    TwelveHanded(14, t.delegations, map[]);
    NoneHanded(14, t.delegations, map[]);
    Remaining(t, t.treasury.voted);
    var e := EarlyRejection.ElectorateOf(t);
    var first := [EarlyRejection.FutureVote(0, map[])];
    var votes := first + [EarlyRejection.FutureVote(13, map[])];
    assert first[..0] == [] && votes[..1] == first;
    assert EarlyRejection.FutureWeight(e, []) == 0;
    assert EarlyRejection.FutureWeight(e, first) == 13;
    assert EarlyRejection.FutureWeight(e, votes) == 14;
    assert EarlyRejection.Continuation(e, votes, EarlyRejection.WithdrawalVoters(c, t, 0));
  }

  lemma Remaining(t: State, voted: set<(Id, Address)>)
    requires Crew(t, t.now, 14, 12) && forall v :: v in voted <==> v.0 == 0 && 1 <= v.1 <= 12
    ensures Books.ActiveSet(t.roster.members) - Ballots.VotedFor(voted, 0) == {0, 13}
  {
    forall a: Address
      ensures a in Books.ActiveSet(t.roster.members) - Ballots.VotedFor(voted, 0) <==> a in {0, 13}
    {
      assert a in Ballots.VotedFor(voted, 0) <==> (0, a) in voted;
    }
  }

  /** The same for a loan. Its borrower may not vote, but the one member who still may can stake one unit and
      then carries the fourteen votes it needs. */
  lemma DelegationDefeatsEarlyLoanRejection(c: Crypto)
    ensures
      var t := Run(c, Start(), LoanBalloting(12));
      && Reachable(c, t)
      && 0 in t.loans.proposals && t.loans.proposals[0].status == Rejected
      && EarlyRejection.LoanVoters(t, 0) == {0}
      && t.loans.proposals[0].forVotes + VotingWeight(Step(c, t, StakeTokens(0, 100)), 0)
         == RequiredVotes(t.roster.active, Lending.ThresholdInForce(t.config)) == 14
      && !EarlyRejection.LoanOutOfReach(t, 0)
  {
    var t := ReachedLoanVoted(c, Start(), 12);
    assert Initial(Start());
    LastOneDecides(c, t);
    OneUnitStaked(c, t);
  }

  lemma OneUnitStaked(c: Crypto, t: State)
    requires Crew(t, 1, 14, 12)
    ensures VotingWeight(Step(c, t, StakeTokens(0, 100)), 0) == 14
  {
    assert 0 in t.roster.members;
    TwelveHanded(14, t.delegations, map[0 := 100]);
  }

  lemma LastOneDecides(c: Crypto, t: State)
    requires Crew(t, 1, 14, 12) && LoanTallied(t.loans, 12)
    ensures RequiredVotes(14, 10_000) == 14
    ensures EarlyRejection.LoanVoters(t, 0) == {0}
    ensures !EarlyRejection.LoanOutOfReach(t, 0)
  {
    TwelveHanded(14, t.delegations, map[0 := 100]);
    Remaining(t, t.loans.voted);
    assert EarlyRejection.LoanVoters(t, 0)
           == Books.ActiveSet(t.roster.members) - Ballots.VotedFor(t.loans.voted, 0) - {13};
    var e := EarlyRejection.ElectorateOf(t);
    var votes := [EarlyRejection.FutureVote(0, map[0 := 100])];
    assert votes[..0] == [];
    assert EarlyRejection.FutureWeight(e, []) == 0;
    assert EarlyRejection.FutureWeight(e, votes) == 14;
    assert EarlyRejection.Continuation(e, votes, EarlyRejection.LoanVoters(t, 0));
  }
}
