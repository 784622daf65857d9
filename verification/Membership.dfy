/** Joining, leaving and claiming yield (`membership.rs`). */
module Membership {
  import opened Types
  import opened Arithmetic
  import opened History
  import opened Storage

  // ---- what each entrypoint does to the state ----

  function NewRecord(r: Roster, who: Address, now: nat, fee: nat): Member {
    if who in r.members then
      var previous := r.members[who];
      Member(who, ActiveMember, now, fee, fee, false, 0, previous.totalLoans, previous.repaidLoans,
             previous.activeLoans)
    else
      Member(who, ActiveMember, now, fee, fee, false, 0, 0, 0, 0)
  }

  function Enrolled(r: Roster, who: Address, now: nat, fee: nat): Roster {
    r.(members := r.members[who := NewRecord(r, who, now, fee)],
       list := if who in r.members then r.list else r.list + [who],
       total := if who in r.members then r.total else r.total + 1,
       active := r.active + 1,
       contributions := r.contributions + fee)
  }

  function RegisterStep(s: State, who: Address): Result<State> {
    if s.config.paused then Failure(Paused) else
    :- Need(!IsActive(s.roster, who), AlreadyMember);
    var fee := s.config.fee;
    var balances :- Transfer(s.balances, s.config.token, who, s.config.self, fee);
    Success(s.(roster := Enrolled(s.roster, who, s.now, fee),
               accrual := s.accrual.(snapshots := s.accrual.snapshots[who := s.accrual.accumulator]),
               balances := balances,
               history := Record(s.history, Joined(who))))
  }

  /** `share_from_contributions`: the floor of the pro-rata slice; nothing on overflow. */
  function ShareFromContributions(treasury: int, contribution: int, totalContributions: int): int {
    if totalContributions <= 0 || treasury <= 0 || contribution <= 0 then 0
    else
      match Checked(treasury * contribution)
      case Some(v) => TruncDiv(v, totalContributions)
      case None => 0
  }

  function ExitShare(s: State, who: Address): int {
    if !IsActive(s.roster, who) then 0
    else ShareFromContributions(TreasuryIn(s, s.config.token), s.roster.members[who].contribution,
                                s.roster.contributions)
  }

  /** `compute_pending_yield`. */
  function PendingYield(y: Accrual, who: Address): int {
    Max(y.accumulator - SnapshotOf(y, who), 0)
  }

  /** `total_active_contributions`: the O(n) scan that the cached total stands for. */
  function TotalActiveContributions(list: seq<Address>, members: map<Address, Member>): int {
    if list == [] then 0
    else
      var a := list[|list| - 1];
      TotalActiveContributions(list[..|list| - 1], members)
      + if a in members && members[a].status == ActiveMember then members[a].contribution else 0
  }

  function Unstaked(k: Staking, who: Address): Staking {
    var stake := StakeOf(k.stakes, who);
    if stake > 0 then k.(stakes := k.stakes[who := 0], total := k.total - stake) else k
  }

  function Departed(r: Roster, who: Address): Roster
    requires who in r.members && r.active > 0
  {
    var record := r.members[who];
    r.(members := r.members[who := record.(status := Inactive, shareBalance := 0)],
       active := r.active - 1,
       contributions := r.contributions - record.contribution)
  }

  function ExitStep(s: State, who: Address): Result<State> {
    if s.config.paused then Failure(Paused) else
    :- RequireActive(s.roster, who);
    :- Need(!s.roster.members[who].hasActiveLoan, HasActiveLoan);
    var share := ExitShare(s, who);
    var pending := PendingYield(s.accrual, who);
    var payout := share + StakeOf(s.staking.stakes, who) + pending;
    :- Need(payout > 0 ==> Balance(s.balances, s.config.token, s.config.self) >= payout, InsufficientTreasury);
    :- Need(s.roster.active > 0, Trapped);
    var balances :- if payout > 0 then Transfer(s.balances, s.config.token, s.config.self, who, payout)
                    else Success(s.balances);
    Success(s.(staking := Unstaked(s.staking, who),
               accrual := s.accrual.(snapshots := s.accrual.snapshots[who := s.accrual.accumulator]),
               roster := Departed(s.roster, who),
               balances := balances,
               history := Record(s.history, Exited(who, share, pending))))
  }

  function ClaimStep(s: State, who: Address): Result<State> {
    if s.config.paused then Failure(Paused) else
    :- RequireActive(s.roster, who);
    var pending := PendingYield(s.accrual, who);
    :- Need(pending > 0, NothingToClaim);
    var balances :- Transfer(s.balances, s.config.token, s.config.self, who, pending);
    Success(s.(accrual := s.accrual.(snapshots := s.accrual.snapshots[who := s.accrual.accumulator]),
               balances := balances,
               history := Record(s.history, Claimed(who, pending))))
  }

  // ---- the entrypoints ----

  method RegisterMember(env: Env, member: Address) returns (r: Result<()>)
    modifies env`accrual, env`roster, env`balances, env`history
    ensures Follows(old(env.View()), env.View(), RegisterStep(old(env.View()), member), r)
  {
    var roster, accrual := env.roster, env.accrual;
    if env.config.paused { return Failure(Paused); }
    if member in env.roster.members && env.roster.members[member].status == ActiveMember {
      return Failure(AlreadyMember);
    }
    Enrol(env, member);
    var paid := env.Pay(env.config.token, member, env.config.self, env.config.fee);
    if !paid {
      env.roster, env.accrual := roster, accrual;
      return Failure(Trapped);
    }
    env.Emit(Joined(member));
    return Success(());
  }

  /** The writes of `register_member`. */
  method Enrol(env: Env, member: Address)
    modifies env`accrual, env`roster
    ensures env.roster == Enrolled(old(env.roster), member, env.now, env.config.fee)
    ensures env.accrual
            == old(env.accrual).(snapshots := old(env.accrual.snapshots)[member := old(env.accrual.accumulator)])
  {
    var returning := member in env.roster.members;
    var fee := env.config.fee;
    var totalLoans, repaidLoans, activeLoans := 0, 0, 0;
    if returning {
      var previous := env.roster.members[member];
      totalLoans, repaidLoans, activeLoans := previous.totalLoans, previous.repaidLoans, previous.activeLoans;
    }
    var record := Member(member, ActiveMember, env.now, fee, fee, false, 0, totalLoans, repaidLoans, activeLoans);
    assert record == NewRecord(env.roster, member, env.now, fee);
    env.roster := env.roster.(members := env.roster.members[member := record]);
    env.accrual := env.accrual.(snapshots := env.accrual.snapshots[member := env.accrual.accumulator]);
    if !returning {
      env.roster := env.roster.(list := env.roster.list + [member], total := env.roster.total + 1);
    }
    env.roster := env.roster.(
      active := env.roster.active + 1,
      contributions := env.roster.contributions + fee);
  }

  method ExitDao(env: Env, member: Address) returns (r: Result<()>)
    modifies env`staking, env`accrual, env`roster, env`balances, env`history
    ensures Follows(old(env.View()), env.View(), ExitStep(old(env.View()), member), r)
  {
    if env.config.paused { return Failure(Paused); }
    :- RequireActive(env.roster, member);
    var record := env.roster.members[member];
    if record.hasActiveLoan { return Failure(HasActiveLoan); }
    var share := ExitShare(env.View(), member);
    var stake := StakeOf(env.staking.stakes, member);
    var pending := PendingYield(env.accrual, member);
    var payout := share + stake + pending;
    if payout > 0 && Balance(env.balances, env.config.token, env.config.self) < payout {
      return Failure(InsufficientTreasury);
    }
    if env.roster.active == 0 {
      return Failure(Trapped);  // the member count would underflow
    }
    Leave(env, member, payout);
    env.Emit(Exited(member, share, pending));
    return Success(());
  }

  /** The writes of `exit_dao`, and its one payment. */
  method Leave(env: Env, member: Address, payout: int)
    requires member in env.roster.members && env.roster.active > 0
    requires payout > 0 ==> Balance(env.balances, env.config.token, env.config.self) >= payout
    modifies env`staking, env`accrual, env`roster, env`balances
    ensures env.staking == Unstaked(old(env.staking), member)
    ensures env.accrual
            == old(env.accrual).(snapshots := old(env.accrual.snapshots)[member := old(env.accrual.accumulator)])
    ensures env.roster == Departed(old(env.roster), member)
    ensures Success(env.balances) == if payout > 0
                                     then Transfer(old(env.balances), env.config.token, env.config.self, member, payout)
                                     else Success(old(env.balances))
  {
    var stake := StakeOf(env.staking.stakes, member);
    if stake > 0 {
      env.staking := env.staking.(stakes := env.staking.stakes[member := 0], total := env.staking.total - stake);
    }
    env.accrual := env.accrual.(snapshots := env.accrual.snapshots[member := env.accrual.accumulator]);
    var record := env.roster.members[member];
    record := record.(status := Inactive, shareBalance := 0);
    var exitingContribution := record.contribution;
    env.roster := env.roster.(
      members := env.roster.members[member := record],
      active := env.roster.active - 1,
      contributions := env.roster.contributions - exitingContribution);
    if payout > 0 {
      var paid := env.Pay(env.config.token, env.config.self, member, payout);
      assert paid;
    }
  }

  method ClaimRewards(env: Env, member: Address) returns (r: Result<int>)
    modifies env`accrual, env`balances, env`history
    ensures Follows(old(env.View()), env.View(), ClaimStep(old(env.View()), member), r)
    ensures r.Success? ==> r.value == PendingYield(old(env.accrual), member) > 0
  {
    var accrual := env.accrual;
    if env.config.paused { return Failure(Paused); }
    :- RequireActive(env.roster, member);
    var pending := PendingYield(env.accrual, member);
    if pending <= 0 { return Failure(NothingToClaim); }
    env.accrual := env.accrual.(snapshots := env.accrual.snapshots[member := env.accrual.accumulator]);
    var paid := env.Pay(env.config.token, env.config.self, member, pending);
    if !paid {
      env.accrual := accrual;
      return Failure(Trapped);
    }
    env.Emit(Claimed(member, pending));
    return Success(pending);
  }
}
