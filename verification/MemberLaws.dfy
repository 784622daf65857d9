/** Joining, leaving, claiming, staking and voting weight, read off the records. */
module MemberLaws {
  import opened Types
  import opened Arithmetic
  import opened Storage
  import opened Sums
  import opened Fields
  import opened ProposalLaws
  import opened Voting
  import Books
  import Lifecycle
  import Membership
  import StakingOps

  // ---- joining ----

  /** The record of a member who joins now: the loan counters of an earlier membership are kept. */
  function Recruit(s: State, who: Address): Member {
    var fee := s.config.fee;
    if who in s.roster.members then
      var m := s.roster.members[who];
      Member(who, ActiveMember, s.now, fee, fee, false, 0, m.totalLoans, m.repaidLoans, m.activeLoans)
    else Member(who, ActiveMember, s.now, fee, fee, false, 0, 0, 0, 0)
  }

  /** Anyone who is not an active member and holds the fee can join; yield counts from that moment. */
  lemma JoiningLaw(s: State, who: Address)
    ensures var r, fee := Membership.RegisterStep(s, who), s.config.fee;
            && (r.Success? <==> !s.config.paused && !Enlisted(s, who) && fee <= Held(s.balances, s.config.token, who))
            && (r.Success? ==>
                  var t, known := r.value, who in s.roster.members;
                  && t.roster == Roster(s.roster.members[who := Recruit(s, who)],
                                        if known then s.roster.list else s.roster.list + [who],
                                        if known then s.roster.total else s.roster.total + 1,
                                        s.roster.active + 1, s.roster.contributions + fee)
                  && t.accrual == s.accrual.(snapshots := s.accrual.snapshots[who := s.accrual.accumulator])
                  && Accrued(t, who) == 0
                  && Moved(s.balances, t.balances, s.config.token, who, s.config.self, fee)
                  && t == s.(roster := t.roster, accrual := t.accrual, balances := t.balances, history := t.history))
  {
    TransferMoves(s.balances, s.config.token, who, s.config.self, s.config.fee);
  }

  // ---- leaving ----

  /** The pool in proportion to what was contributed, rounded down; an overflowing product is worth nothing. */
  function Portion(s: State, who: Address): int
    requires who in s.roster.members
  {
    var pool, put, all := Pool(s, s.config.token), s.roster.members[who].contribution, s.roster.contributions;
    if pool > 0 && put > 0 && all > 0 && pool * put <= MAX then pool * put / all else 0
  }

  /** All a leaver takes: the portion, the stake and the yield. */
  function Farewell(s: State, who: Address): int
    requires who in s.roster.members
  {
    Portion(s, who) + Staked(s, who) + Accrued(s, who)
  }

  lemma PortionIsShare(s: State, who: Address)
    requires Enlisted(s, who)
    ensures Membership.ExitShare(s, who) == Portion(s, who)
  {
    var pool, put := Pool(s, s.config.token), s.roster.members[who].contribution;
    if pool > 0 && put > 0 {
      MulNonNegative(pool, put);
    }
  }

  /** An active member can leave exactly without a flagged loan and when the contract holds what the member takes;
      otherwise the refusal is for the loan, or for want of money. */
  lemma LeavingAcceptedIff(s: State, who: Address)
    requires Enlisted(s, who) ==> s.roster.active > 0
    ensures var r := Membership.ExitStep(s, who);
            && (r.Success? <==> && !s.config.paused && Enlisted(s, who) && !s.roster.members[who].hasActiveLoan
                                && (Farewell(s, who) <= 0
                                    || Farewell(s, who) <= Held(s.balances, s.config.token, s.config.self)))
            && (!s.config.paused && Enlisted(s, who) && r.Failure? ==>
                  r.error == if s.roster.members[who].hasActiveLoan then HasActiveLoan else InsufficientTreasury)
  {
    if Enlisted(s, who) {
      PortionIsShare(s, who);
    }
  }

  /** The leaver is paid once; record, stake, yield and totals are settled. */
  lemma LeavingEffect(s: State, who: Address)
    requires Membership.ExitStep(s, who).Success?
    ensures Enlisted(s, who)
    ensures var t, m := Membership.ExitStep(s, who).value, s.roster.members[who];
            && t.roster.members == s.roster.members[who := m.(status := Inactive, shareBalance := 0)]
            && t.roster.active + 1 == s.roster.active
            && t.roster.contributions == s.roster.contributions - m.contribution
            && t.roster.list == s.roster.list && t.roster.total == s.roster.total
            && t.staking.times == s.staking.times
            && (Staked(s, who) > 0 ==> t.staking.stakes == s.staking.stakes[who := 0]
                                       && t.staking.total == s.staking.total - Staked(s, who))
            && (Staked(s, who) <= 0 ==> t.staking == s.staking)
            && t.accrual == s.accrual.(snapshots := s.accrual.snapshots[who := s.accrual.accumulator])
            && (if Farewell(s, who) > 0
                then Moved(s.balances, t.balances, s.config.token, s.config.self, who, Farewell(s, who))
                else t.balances == s.balances)
            && t == s.(roster := t.roster, staking := t.staking, accrual := t.accrual, balances := t.balances,
                       history := t.history)
  {
    PortionIsShare(s, who);
    TransferMoves(s.balances, s.config.token, s.config.self, who, Farewell(s, who));
  }

  // ---- yield ----

  /** An active member can claim exactly a positive accrual the contract holds; it is paid and settled. */
  lemma ClaimLaw(s: State, who: Address)
    ensures var r := Membership.ClaimStep(s, who);
            && (r.Success? <==> && !s.config.paused && Enlisted(s, who)
                                && 0 < Accrued(s, who) <= Held(s.balances, s.config.token, s.config.self))
            && (r.Success? ==>
                  var t := r.value;
                  && t.accrual == s.accrual.(snapshots := s.accrual.snapshots[who := s.accrual.accumulator])
                  && Accrued(t, who) == 0
                  && Moved(s.balances, t.balances, s.config.token, s.config.self, who, Accrued(s, who))
                  && t == s.(accrual := t.accrual, balances := t.balances, history := t.history))
  {
    TransferMoves(s.balances, s.config.token, s.config.self, who, Accrued(s, who));
  }

  // ---- stake ----

  /** An active member can stake any positive amount: only the books change, and the cooldown starts again. */
  lemma StakingLaw(s: State, who: Address, amount: int)
    ensures var r := StakingOps.StakeStep(s, who, amount);
            && (r.Success? <==> !s.config.paused && Enlisted(s, who) && amount > 0)
            && (r.Success? ==> r.value == s.(staking := Staking(s.staking.stakes[who := Staked(s, who) + amount],
                                                                s.staking.total + amount,
                                                                s.staking.times[who := s.now])))
  {
  }

  /** Nothing the member voted on, committed to or asked for is still open. */
  ghost predicate Untied(s: State, who: Address) {
    && OpenRequests(s.loans, who, s.now) == {}
    && (forall id :: id in s.loans.proposals && RequestOpen(s.loans.proposals[id], s.now) ==>
          (id, who) !in s.loans.voted)
    && (forall id :: id in s.treasury.proposals && AskOpen(s.treasury.proposals[id], s.now) ==>
          (id, who) !in s.treasury.voted && (id, who) !in s.treasury.commits)
  }

  lemma UntiedIsUnlocked(s: State, who: Address)
    requires Lifecycle.LifeInv(s) && IdsBounded(s)
    ensures StakingOps.StakeLocked(s, who) <==> !Untied(s, who)
  {
    if !Untied(s, who) {
      if OpenRequests(s.loans, who, s.now) != {} {
        var id :| id in OpenRequests(s.loans, who, s.now);
        assert Lifecycle.ProposalOk(s.loans, s.roster.members.Keys, s.history.disbursals, id);
        assert StakingOps.OwnRequest(s.loans.proposals[id], who, s.now);
      } else if exists id :: id in s.loans.proposals && RequestOpen(s.loans.proposals[id], s.now)
                             && (id, who) in s.loans.voted {
        var id :| id in s.loans.proposals && RequestOpen(s.loans.proposals[id], s.now) && (id, who) in s.loans.voted;
        assert StakingOps.LoanBallot(s.loans, id, who, s.now);
      } else {
        var id :| id in s.treasury.proposals && AskOpen(s.treasury.proposals[id], s.now)
                  && ((id, who) in s.treasury.voted || (id, who) in s.treasury.commits);
        assert StakingOps.TreasuryBallot(s.treasury, id, who, s.now);
      }
    }
    if StakingOps.OwnRequestOpen(s.loans, who, s.now) {
      var id :| id in s.loans.proposals && id < s.loans.next
                && StakingOps.OwnRequest(s.loans.proposals[id], who, s.now);
      assert id in OpenRequests(s.loans, who, s.now);
    }
  }

  /** Stake can be taken back exactly up to what there is, after the cooldown, while the member is untied. */
  lemma UnstakingLaw(s: State, who: Address, amount: int)
    requires Lifecycle.LifeInv(s) && IdsBounded(s)
    ensures var r := StakingOps.UnstakeStep(s, who, amount);
            && (r.Success? <==>
                  && !s.config.paused && 0 < amount <= Staked(s, who)
                  && (if who in s.staking.times then s.staking.times[who] else 0) + s.config.policy.cooldownPeriod
                     <= s.now
                  && Untied(s, who))
            && (r.Success? ==> r.value == s.(staking := Staking(s.staking.stakes[who := Staked(s, who) - amount],
                                                                s.staking.total - amount, s.staking.times)))
  {
    UntiedIsUnlocked(s, who);
  }

  // ---- voting weight ----

  /** One vote, and one more for each step of the square root of the stake in hundreds, up to five. */
  ghost predicate OwnShare(stake: int, votes: int) {
    && 1 <= votes <= 6
    && (votes == 1 || 100 * (votes - 1) * (votes - 1) <= stake)
    && (votes < 6 ==> stake < 100 * votes * votes)
  }

  lemma OwnVotesLaw(k: map<Address, int>, who: Address)
    ensures OwnShare(StakeOf(k, who), OwnVotes(k, who))
  {
  }

  lemma OwnShareUnique(stake: int, v: int, w: int)
    requires OwnShare(stake, v) && OwnShare(stake, w)
    ensures v == w
  {
    assert v == 1 || v == 2 || v == 3 || v == 4 || v == 5 || v == 6;
    assert w == 1 || w == 2 || w == 3 || w == 4 || w == 5 || w == 6;
  }

  /** The votes that listed members have handed to the account, each their own. */
  ghost function Handing(list: seq<Address>, d: map<Address, Address>, k: map<Address, int>, who: Address)
    : map<Address, int>
  {
    map m | m in list && m in d && d[m] == who :: OwnVotes(k, m)
  }

  /** A ballot weighs the voter's own votes and all that were handed to the voter; nothing once the voter has
      handed them on. */
  lemma WeightLaw(list: seq<Address>, d: map<Address, Address>, k: map<Address, int>, who: Address)
    requires Books.NoDuplicates(list)
    ensures Weight(list, d, k, who)
            == if who in d then 0 else OwnVotes(k, who) + MapSum(Handing(list, d, k, who))
  {
    HandedLaw(list, d, k, who);
  }

  lemma {:induction false} HandedLaw(list: seq<Address>, d: map<Address, Address>, k: map<Address, int>, who: Address)
    requires Books.NoDuplicates(list)
    ensures HandedTo(list, d, k, who) == MapSum(Handing(list, d, k, who))
  {
    if list == [] {
      assert Handing(list, d, k, who) == map[];
    } else {
      var n := |list| - 1;
      LastListed(list);
      HandedLaw(list[..n], d, k, who);
      HandingGrows(list, d, k, who);
      if DelegatesTo(d, list[n], who) {
        MapSumUpdate(Handing(list[..n], d, k, who), list[n], OwnVotes(k, list[n]));
      }
    }
  }

  lemma LastListed(list: seq<Address>)
    requires list != [] && Books.NoDuplicates(list)
    ensures var n := |list| - 1;
            && Books.NoDuplicates(list[..n]) && list[n] !in list[..n]
            && forall m :: m in list <==> m in list[..n] || m == list[n]
  {
  }

  lemma HandingGrows(list: seq<Address>, d: map<Address, Address>, k: map<Address, int>, who: Address)
    requires list != [] && forall m :: m in list <==> m in list[..|list| - 1] || m == list[|list| - 1]
    ensures var n := |list| - 1;
            var fewer := Handing(list[..n], d, k, who);
            Handing(list, d, k, who)
            == if DelegatesTo(d, list[n], who) then fewer[list[n] := OwnVotes(k, list[n])] else fewer
  {
  }

  /** An active member can hand votes to another one, and to nobody else. */
  lemma DelegationLaw(s: State, who: Address, to: Address)
    ensures var r := DelegateStep(s, who, to);
            && (r.Success? <==> !s.config.paused && Enlisted(s, who) && Enlisted(s, to) && who != to)
            && (r.Success? ==> r.value == s.(delegations := s.delegations[who := to]))
  {
  }
}
