/** Stake behind an open ballot stays locked. */
module StakeLock {
  import opened Types
  import opened Storage
  import opened StakingOps
  import opened TreasuryOps
  import opened System
  import opened Frames
  import opened Lifecycle
  import opened Withdrawals
  import Membership

  lemma MemberStake(s: State, who: Address, amount: int, m: Address)
    ensures var r := Membership.RegisterStep(s, who); r.Success? ==> r.value.staking == s.staking
    ensures var r := Membership.ClaimStep(s, who); r.Success? ==> r.value.staking == s.staking
    ensures var r := Membership.ExitStep(s, who);
            r.Success? && m != who ==> StakeOf(r.value.staking.stakes, m) == StakeOf(s.staking.stakes, m)
    ensures var r := StakeStep(s, who, amount);
            r.Success? ==> StakeOf(r.value.staking.stakes, m) >= StakeOf(s.staking.stakes, m)
    ensures var r := UnstakeStep(s, who, amount);
            r.Success? ==>
              StakeOf(r.value.staking.stakes, m) == StakeOf(s.staking.stakes, m) || (m == who && !StakeLocked(s, who))
  {
  }

  lemma MemberActionStake(c: Crypto, s: State, a: Action, m: Address)
    requires MemberAction(a) && AttemptMember(s, a).Success?
    requires StakeOf(AttemptMember(s, a).value.staking.stakes, m) < StakeOf(s.staking.stakes, m)
    ensures a == Exit(m) || (a.UnstakeTokens? && a.who == m && !StakeLocked(s, m))
  {
    match a
    case Register(who) => MemberStake(s, who, 0, m);
    case Exit(who) => MemberStake(s, who, 0, m);
    case Claim(who) => MemberStake(s, who, 0, m);
    case StakeTokens(who, amount) => MemberStake(s, who, amount, m);
    case UnstakeTokens(who, amount) => MemberStake(s, who, amount, m);
  }

  /** In one step a member's stake falls only by leaving, or by an unstake that nothing locks. */
  lemma StakeFallsOnlyUnlocked(c: Crypto, s: State, a: Action, m: Address)
    requires StakeOf(Step(c, s, a).staking.stakes, m) < StakeOf(s.staking.stakes, m)
    ensures a == Exit(m) || (a.UnstakeTokens? && a.who == m && !StakeLocked(s, m))
  {
    if MemberAction(a) {
      MemberActionStake(c, s, a, m);
    } else if ProposalAction(a) {
      ProposalFrame(c, s, a);
    } else if DebtAction(a) {
      DebtFrame(c, s, a);
    } else if TreasuryAction(a) {
      TreasuryFrame(c, s, a);
    } else {
      EnvironmentFrame(c, s, a);
    }
  }

  lemma StepTime(c: Crypto, s: State, a: Action)
    ensures s.now <= Step(c, s, a).now
  {
    if TreasuryAction(a) {
      TreasuryFrame(c, s, a);
    } else {
      OtherFrame(c, s, a);
    }
  }

  lemma {:induction false} RunTime(c: Crypto, s: State, actions: seq<Action>)
    ensures s.now <= Run(c, s, actions).now
    decreases |actions|
  {
    if actions != [] {
      StepTime(c, s, actions[0]);
      RunTime(c, Step(c, s, actions[0]), actions[1..]);
    }
  }

  /** If the ballot's proposal is still open at the end of a run, it locked the stake all along. */
  lemma LoanBallotLocks(b: LoanBook, d: LoanBook, id: Id, m: Address, now: nat, later: nat)
    requires BookEvolves(b, d) && now <= later && id in b.proposals && id < b.next && (id, m) in b.voted
    requires LoanOpen(d.proposals[id], later)
    ensures LoanBallotOpen(b, m, now)
  {
    assert Evolves(b.proposals[id], d.proposals[id]);
    assert LoanBallot(b, id, m, now);
  }

  lemma TreasuryBallotLocks(b: TreasuryBook, d: TreasuryBook, id: Id, m: Address, now: nat, later: nat)
    requires TreasuryEvolves(b, d) && now <= later && id in b.proposals && id < b.next
    requires (id, m) in b.voted || (id, m) in b.commits
    requires TreasuryOpen(d.proposals[id], later)
    ensures TreasuryBallotOpen(b, m, now)
  {
    assert SameRequest(b.proposals[id], d.proposals[id]);
    assert TreasuryBallot(b, id, m, now);
  }

  lemma OwnRequestLocks(b: LoanBook, d: LoanBook, id: Id, m: Address, now: nat, later: nat)
    requires BookEvolves(b, d) && now <= later && id in b.proposals && id < b.next && b.proposals[id].borrower == m
    requires PhaseMatches(b.proposals[id])
    requires LoanOpen(d.proposals[id], later)
    ensures OwnRequestOpen(b, m, now)
  {
    assert Evolves(b.proposals[id], d.proposals[id]);
    assert OwnRequest(b.proposals[id], m, now);
  }

  /** What ties a member's stake to proposal `id`. */
  datatype Tie = LoanVote(id: Id) | TreasuryVote(id: Id) | OwnLoan(id: Id)

  ghost predicate Tied(s: State, m: Address, tie: Tie) {
    match tie
    case LoanVote(id) => id in s.loans.proposals && (id, m) in s.loans.voted
    case TreasuryVote(id) =>
      id in s.treasury.proposals && ((id, m) in s.treasury.voted || (id, m) in s.treasury.commits)
    case OwnLoan(id) => id in s.loans.proposals && s.loans.proposals[id].borrower == m
  }

  ghost predicate StillOpen(s: State, tie: Tie) {
    match tie
    case LoanVote(id) => id in s.loans.proposals && LoanOpen(s.loans.proposals[id], s.now)
    case TreasuryVote(id) => id in s.treasury.proposals && TreasuryOpen(s.treasury.proposals[id], s.now)
    case OwnLoan(id) => id in s.loans.proposals && LoanOpen(s.loans.proposals[id], s.now)
  }

  lemma OpenTieLocks(c: Crypto, s: State, m: Address, tie: Tie)
    requires LifeInv(s) && WithdrawalInv(c, s) && Tied(s, m, tie) && StillOpen(s, tie)
    ensures StakeLocked(s, m)
  {
    BookReflexive(s.loans);
    TreasuryReflexive(s.treasury);
    TieLocks(c, s, s, m, tie);
  }

  lemma LockIsTie(s: State, m: Address) returns (tie: Tie)
    requires StakeLocked(s, m)
    ensures Tied(s, m, tie) && StillOpen(s, tie)
  {
    if OwnRequestOpen(s.loans, m, s.now) {
      var id :| id in s.loans.proposals && id < s.loans.next && OwnRequest(s.loans.proposals[id], m, s.now);
      tie := OwnLoan(id);
    } else if TreasuryBallotOpen(s.treasury, m, s.now) {
      var id :| id in s.treasury.proposals && id < s.treasury.next && TreasuryBallot(s.treasury, id, m, s.now);
      tie := TreasuryVote(id);
    } else {
      var id :| id in s.loans.proposals && id < s.loans.next && LoanBallot(s.loans, id, m, s.now);
      tie := LoanVote(id);
    }
  }

  /** An unstake that passes every other check is refused exactly while some open proposal holds the stake:
      one the member voted on, committed to, or asked for. The scans miss no such proposal, in whatever phase
      its record was left, and report no other. */
  lemma UnstakeRefusedIffTied(c: Crypto, s: State, who: Address, amount: int)
    requires LifeInv(s) && WithdrawalInv(c, s)
    requires !s.config.paused && 0 < amount <= StakeOf(s.staking.stakes, who)
    requires s.now >= StakedAt(s.staking, who) + s.config.policy.cooldownPeriod
    ensures UnstakeStep(s, who, amount) == Failure(HasActiveLoan)
            <==> exists tie :: Tied(s, who, tie) && StillOpen(s, tie)
    ensures UnstakeStep(s, who, amount).Success? <==> forall tie :: Tied(s, who, tie) ==> !StillOpen(s, tie)
  {
    if StakeLocked(s, who) {
      var tie := LockIsTie(s, who);
    }
    forall tie | Tied(s, who, tie) && StillOpen(s, tie)
      ensures StakeLocked(s, who)
    {
      OpenTieLocks(c, s, who, tie);
    }
  }

  lemma TieLocks(c: Crypto, s: State, t: State, m: Address, tie: Tie)
    requires LifeInv(s) && WithdrawalInv(c, s)
    requires BookEvolves(s.loans, t.loans) && TreasuryEvolves(s.treasury, t.treasury) && s.now <= t.now
    requires Tied(s, m, tie) && StillOpen(t, tie)
    ensures StakeLocked(s, m)
  {
    match tie
    case LoanVote(id) =>
      assert ProposalOk(s.loans, s.roster.members.Keys, s.history.disbursals, id);
      LoanBallotLocks(s.loans, t.loans, id, m, s.now, t.now);
    case TreasuryVote(id) =>
      TreasuryBallotLocks(s.treasury, t.treasury, id, m, s.now, t.now);
    case OwnLoan(id) =>
      assert ProposalOk(s.loans, s.roster.members.Keys, s.history.disbursals, id);
      OwnRequestLocks(s.loans, t.loans, id, m, s.now, t.now);
  }

  lemma TieKept(s: State, t: State, m: Address, tie: Tie)
    requires Tied(s, m, tie) && BookEvolves(s.loans, t.loans) && TreasuryEvolves(s.treasury, t.treasury)
    ensures Tied(t, m, tie)
  {
    match tie
    case LoanVote(id) =>
    case TreasuryVote(id) =>
    case OwnLoan(id) => assert Evolves(s.loans.proposals[id], t.loans.proposals[id]);
  }

  /** From the moment a ballot, an unopened commitment or an own request is recorded until its
      proposal leaves pending or its window ends, a member who does not leave keeps the stake. */
  lemma {:induction false} StakeStaysLocked(c: Crypto, s: State, actions: seq<Action>, m: Address, tie: Tie)
    requires LifeInv(s) && WithdrawalInv(c, s)
    requires Tied(s, m, tie) && StillOpen(Run(c, s, actions), tie)
    requires Exit(m) !in actions
    ensures StakeOf(Run(c, s, actions).staking.stakes, m) >= StakeOf(s.staking.stakes, m)
    decreases |actions|
  {
    if actions != [] {
      var s1 := Step(c, s, actions[0]);
      var t := Run(c, s1, actions[1..]);
      RunLife(c, s, actions);
      RunWithdrawal(c, s, actions);
      RunTime(c, s, actions);
      TieLocks(c, s, t, m, tie);
      if StakeOf(s1.staking.stakes, m) < StakeOf(s.staking.stakes, m) {
        StakeFallsOnlyUnlocked(c, s, actions[0], m);
      }
      StepLife(c, s, actions[0]);
      StepWithdrawal(c, s, actions[0]);
      TieKept(s, s1, m, tie);
      StakeStaysLocked(c, s1, actions[1..], m, tie);
    }
  }
}
