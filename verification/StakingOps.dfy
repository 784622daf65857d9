/** Locking and unlocking stake (`staking.rs`). The entrypoints keep the stake books only; they
    move no tokens. */
module StakingOps {
  import opened Types
  import opened Arithmetic
  import opened Storage

  function StakeStep(s: State, who: Address, amount: int): Result<State> {
    if s.config.paused then Failure(Paused) else
    :- RequireActive(s.roster, who);
    :- Need(amount > 0, InvalidAmount);
    Success(s.(staking := Staking(
                 s.staking.stakes[who := StakeOf(s.staking.stakes, who) + amount],
                 s.staking.total + amount,
                 s.staking.times[who := s.now])))
  }

  /** The member's own loan request is still open. */
  predicate OwnRequestOpen(b: LoanBook, who: Address, now: nat) {
    exists id :: id in b.proposals && id < b.next && OwnRequest(b.proposals[id], who, now)
  }

  predicate OwnRequest(p: LoanProposal, who: Address, now: nat) {
    && p.borrower == who
    && (p.phase == EditingPhase || p.phase == VotingPhase)
    && LoanOpen(p, now)
  }

  /** The member cast, or committed, a ballot on an open withdrawal proposal. */
  predicate TreasuryBallotOpen(b: TreasuryBook, who: Address, now: nat) {
    exists id :: id in b.proposals && id < b.next && TreasuryBallot(b, id, who, now)
  }

  predicate TreasuryBallot(b: TreasuryBook, id: Id, who: Address, now: nat)
    requires id in b.proposals
  {
    TreasuryOpen(b.proposals[id], now) && ((id, who) in b.voted || (id, who) in b.commits)
  }

  /** The member cast a ballot on an open loan proposal. */
  predicate LoanBallotOpen(b: LoanBook, who: Address, now: nat) {
    exists id :: id in b.proposals && id < b.next && LoanBallot(b, id, who, now)
  }

  predicate LoanBallot(b: LoanBook, id: Id, who: Address, now: nat)
    requires id in b.proposals
  {
    LoanOpen(b.proposals[id], now) && (id, who) in b.voted
  }

  /** Stake is locked exactly while one of these is open. */
  predicate StakeLocked(s: State, who: Address) {
    || OwnRequestOpen(s.loans, who, s.now)
    || TreasuryBallotOpen(s.treasury, who, s.now)
    || LoanBallotOpen(s.loans, who, s.now)
  }

  function StakedAt(k: Staking, who: Address): nat {
    if who in k.times then k.times[who] else 0
  }

  function UnstakeStep(s: State, who: Address, amount: int): Result<State> {
    if s.config.paused then Failure(Paused) else
    :- Need(amount > 0, InvalidAmount);
    var current := StakeOf(s.staking.stakes, who);
    :- Need(current != 0, NoStake);
    :- Need(amount <= current, InsufficientStake);
    :- Need(s.now >= StakedAt(s.staking, who) + s.config.policy.cooldownPeriod, CooldownActive);
    :- Need(!StakeLocked(s, who), HasActiveLoan);
    Success(s.(staking := s.staking.(stakes := s.staking.stakes[who := current - amount],
                                     total := s.staking.total - amount)))
  }

  method Stake(env: Env, member: Address, amount: int) returns (r: Result<()>)
    modifies env`staking
    ensures Follows(old(env.View()), env.View(), StakeStep(old(env.View()), member, amount), r)
  {
    if env.config.paused { return Failure(Paused); }
    :- RequireActive(env.roster, member);
    if amount <= 0 { return Failure(InvalidAmount); }
    var newStake := StakeOf(env.staking.stakes, member) + amount;
    env.staking := env.staking.(stakes := env.staking.stakes[member := newStake]);
    env.staking := env.staking.(total := env.staking.total + amount);
    env.staking := env.staking.(times := env.staking.times[member := env.now]);
    return Success(());
  }

  /** The three scans of `unstake`: whether some open proposal holds the member's stake. */
  method ScanForLocks(env: Env, member: Address) returns (locked: bool)
    ensures locked == StakeLocked(env.View(), member)
  {
    var loans, treasury, now := env.loans, env.treasury, env.now;
    for id := 0 to loans.next
      invariant forall i: Id :: i in loans.proposals && i < id ==> !OwnRequest(loans.proposals[i], member, now)
    {
      if id in loans.proposals {
        var p := loans.proposals[id];
        if p.borrower == member
           && (p.phase == EditingPhase || p.phase == VotingPhase)
           && p.status == Pending
           && now <= SatAdd64(p.editingPeriodEnd, p.votingPeriod) {
          assert OwnRequest(p, member, now);
          return true;
        }
      }
    }
    for id := 0 to treasury.next
      invariant forall i: Id :: i in treasury.proposals && i < id ==> !TreasuryBallot(treasury, i, member, now)
    {
      if id in treasury.proposals {
        var p := treasury.proposals[id];
        var votingEnd := SatAdd64(p.createdAt, SatMul64(p.votingPeriod, if p.isPrivate then 2 else 1));
        if p.status == Pending && now <= votingEnd
           && ((id, member) in treasury.voted || (id, member) in treasury.commits) {
          assert TreasuryBallot(treasury, id, member, now);
          return true;
        }
      }
    }
    for id := 0 to loans.next
      invariant forall i: Id :: i in loans.proposals && i < id ==> !LoanBallot(loans, i, member, now)
    {
      if id in loans.proposals {
        var p := loans.proposals[id];
        if p.status == Pending
           && now <= SatAdd64(p.editingPeriodEnd, p.votingPeriod)
           && (id, member) in loans.voted {
          assert LoanBallot(loans, id, member, now);
          return true;
        }
      }
    }
    return false;
  }

  method Unstake(env: Env, member: Address, amount: int) returns (r: Result<()>)
    modifies env`staking
    ensures Follows(old(env.View()), env.View(), UnstakeStep(old(env.View()), member, amount), r)
  {
    if env.config.paused { return Failure(Paused); }
    if amount <= 0 { return Failure(InvalidAmount); }
    var current := StakeOf(env.staking.stakes, member);
    if current == 0 { return Failure(NoStake); }
    if amount > current { return Failure(InsufficientStake); }
    if env.now < StakedAt(env.staking, member) + env.config.policy.cooldownPeriod {
      return Failure(CooldownActive);
    }
    var locked := ScanForLocks(env, member);
    if locked { return Failure(HasActiveLoan); }
    env.staking := env.staking.(stakes := env.staking.stakes[member := current - amount]);
    env.staking := env.staking.(total := env.staking.total - amount);
    return Success(());
  }
}
