/** Delegation conserves weight, and what that means for early rejection. */
module Delegation {
  import opened Types
  import opened Arithmetic
  import opened Storage
  import opened TreasuryOps
  import opened System
  import opened Frames
  import opened Voting
  import opened Books

  // ---- the weight of a whole roster ----

  ghost function TotalWeight(ws: seq<Address>, list: seq<Address>, d: map<Address, Address>,
                             k: map<Address, int>): int {
    if ws == [] then 0
    else TotalWeight(ws[..|ws| - 1], list, d, k) + Weight(list, d, k, ws[|ws| - 1])
  }

  ghost function TotalOwn(list: seq<Address>, k: map<Address, int>): int {
    if list == [] then 0 else TotalOwn(list[..|list| - 1], k) + OwnVotes(k, list[|list| - 1])
  }

  /** `m`'s votes reach nobody: they were handed to someone who cannot cast them. */
  ghost predicate Lost(m: Address, holders: seq<Address>, d: map<Address, Address>) {
    m in d && (d[m] in d || d[m] !in holders)
  }

  ghost function LostVotes(list: seq<Address>, holders: seq<Address>, d: map<Address, Address>,
                           k: map<Address, int>): int {
    if list == [] then 0
    else
      var m := list[|list| - 1];
      LostVotes(list[..|list| - 1], holders, d, k) + if Lost(m, holders, d) then OwnVotes(k, m) else 0
  }

  /** Votes of `list` that reach some holder in `ws` by delegation. */
  ghost function Received(list: seq<Address>, ws: seq<Address>, d: map<Address, Address>, k: map<Address, int>): int {
    if list == [] then 0
    else
      var m := list[|list| - 1];
      Received(list[..|list| - 1], ws, d, k) + if m in d && d[m] !in d && d[m] in ws then OwnVotes(k, m) else 0
  }

  ghost function Direct(ws: seq<Address>, d: map<Address, Address>, k: map<Address, int>): int {
    if ws == [] then 0
    else
      var w := ws[|ws| - 1];
      Direct(ws[..|ws| - 1], d, k) + if w in d then 0 else OwnVotes(k, w)
  }

  ghost function Handed(ws: seq<Address>, list: seq<Address>, d: map<Address, Address>, k: map<Address, int>): int {
    if ws == [] then 0
    else
      var w := ws[|ws| - 1];
      Handed(ws[..|ws| - 1], list, d, k) + if w in d then 0 else HandedTo(list, d, k, w)
  }

  lemma {:induction false} WeightSplits(ws: seq<Address>, list: seq<Address>, d: map<Address, Address>,
                                        k: map<Address, int>)
    ensures TotalWeight(ws, list, d, k) == Direct(ws, d, k) + Handed(ws, list, d, k)
  {
    if ws != [] {
      WeightSplits(ws[..|ws| - 1], list, d, k);
    }
  }

  /** One more delegator adds its votes to exactly the holder it named, if that holder is listed. */
  lemma {:induction false} HandedOneMore(ws: seq<Address>, list: seq<Address>, m: Address, d: map<Address, Address>,
                                         k: map<Address, int>)
    requires NoDuplicates(ws)
    ensures Handed(ws, list + [m], d, k) ==
            Handed(ws, list, d, k) + if m in d && d[m] !in d && d[m] in ws then OwnVotes(k, m) else 0
  {
    assert (list + [m])[..|list|] == list;
    if ws != [] {
      var n := |ws| - 1;
      HandedOneMore(ws[..n], list, m, d, k);
      assert m in d && d[m] in ws <==> m in d && (d[m] in ws[..n] || d[m] == ws[n]);
      assert ws[n] !in ws[..n];
    }
  }

  /** Exchanging the sums: what holders are handed is what delegators hand over. */
  lemma {:induction false} HandedIsReceived(ws: seq<Address>, list: seq<Address>, d: map<Address, Address>,
                                            k: map<Address, int>)
    requires NoDuplicates(ws)
    ensures Handed(ws, list, d, k) == Received(list, ws, d, k)
  {
    if list == [] {
      NothingHanded(ws, d, k);
    } else {
      var n := |list| - 1;
      HandedIsReceived(ws, list[..n], d, k);
      HandedOneMore(ws, list[..n], list[n], d, k);
      assert list[..n] + [list[n]] == list;
    }
  }

  lemma {:induction false} NothingHanded(ws: seq<Address>, d: map<Address, Address>, k: map<Address, int>)
    ensures Handed(ws, [], d, k) == 0
  {
    if ws != [] {
      NothingHanded(ws[..|ws| - 1], d, k);
    }
  }

  lemma {:induction false} EveryVoteCountedOnce(list: seq<Address>, holders: seq<Address>, d: map<Address, Address>,
                                                k: map<Address, int>)
    ensures Direct(list, d, k) + Received(list, holders, d, k) + LostVotes(list, holders, d, k) == TotalOwn(list, k)
  {
    if list != [] {
      EveryVoteCountedOnce(list[..|list| - 1], holders, d, k);
    }
  }

  lemma {:induction false} LostNothing(list: seq<Address>, holders: seq<Address>, d: map<Address, Address>,
                                       k: map<Address, int>)
    ensures LostVotes(list, holders, d, k) >= 0
    ensures LostVotes(list, holders, d, k) == 0 <==> forall i :: 0 <= i < |list| ==> !Lost(list[i], holders, d)
  {
    if list != [] {
      var n := |list| - 1;
      LostNothing(list[..n], holders, d, k);
      assert forall i :: 0 <= i < n ==> list[..n][i] == list[i];
      StakeBoostMonotone(StakeOf(k, list[n]), StakeOf(k, list[n]));
    }
  }

  lemma {:induction false} OwnVotesBound(list: seq<Address>, k: map<Address, int>)
    ensures TotalOwn(list, k) <= 6 * |list|
  {
    if list != [] {
      OwnVotesBound(list[..|list| - 1], k);
    }
  }

  /** Summed over a duplicate-free member list, voting weight is the members' own votes minus those
      handed to someone who has delegated too; so delegation creates no votes, and loses none
      exactly when no delegate has delegated. */
  lemma DelegationConservesWeight(list: seq<Address>, d: map<Address, Address>, k: map<Address, int>)
    requires NoDuplicates(list)
    requires forall m :: m in d ==> d[m] in list
    ensures TotalWeight(list, list, d, k) == TotalOwn(list, k) - LostVotes(list, list, d, k)
    ensures TotalWeight(list, list, d, k) <= TotalOwn(list, k) <= 6 * |list|
    ensures TotalWeight(list, list, d, k) == TotalOwn(list, k)
            <==> forall m :: m in list && m in d ==> d[m] !in d
  {
    WeightSplits(list, list, d, k);
    HandedIsReceived(list, list, d, k);
    EveryVoteCountedOnce(list, list, d, k);
    LostNothing(list, list, d, k);
    OwnVotesBound(list, k);
    if forall i :: 0 <= i < |list| ==> !Lost(list[i], list, d) {
      forall m | m in list && m in d
        ensures d[m] !in d
      {
        var i :| 0 <= i < |list| && list[i] == m;
        assert !Lost(list[i], list, d);
      }
    }
  }

  // ---- delegates are members ----

  /** Delegates are recorded members, so they are on the list. */
  ghost predicate DelegationInv(s: State) {
    forall m :: m in s.delegations ==> m in s.roster.members && s.delegations[m] in s.roster.members
  }

  lemma InitialDelegation(s: State)
    requires Initial(s)
    ensures DelegationInv(s)
  {
  }

  lemma StepDelegation(c: Crypto, s: State, a: Action)
    requires DelegationInv(s)
    ensures DelegationInv(Step(c, s, a))
  {
    if MemberAction(a) {
      MemberFrame(c, s, a);
    } else if ProposalAction(a) {
      ProposalFrame(c, s, a);
    } else if DebtAction(a) {
      DebtFrame(c, s, a);
    } else if TreasuryAction(a) {
      TreasuryFrame(c, s, a);
    } else {
      EnvironmentFrame(c, s, a);
      if a.Delegate? {
        DelegateKeeps(s, a.who, a.delegatee);
      } else {
        OtherKeeps(c, s, a);
      }
    }
  }

  lemma DelegateKeeps(s: State, who: Address, delegatee: Address)
    requires DelegationInv(s)
    ensures var r := DelegateStep(s, who, delegatee); r.Success? ==> DelegationInv(r.value)
  {
  }

  lemma OtherKeeps(c: Crypto, s: State, a: Action)
    requires EnvironmentAction(a) && !a.Delegate?
    ensures Step(c, s, a).delegations == s.delegations
  {
  }

  /** The law in any state that keeps the roster and delegation invariants. */
  lemma RosterWeight(s: State)
    requires RosterInv(s.roster) && DelegationInv(s)
    ensures
      var total := TotalWeight(s.roster.list, s.roster.list, s.delegations, s.staking.stakes);
      var own := TotalOwn(s.roster.list, s.staking.stakes);
      && total <= own <= 6 * |s.roster.list|
      && (total == own <==> forall m :: m in s.delegations ==> s.delegations[m] !in s.delegations)
  {
    DelegationConservesWeight(s.roster.list, s.delegations, s.staking.stakes);
  }

  lemma {:induction false} NothingDelegated(list: seq<Address>, k: map<Address, int>, who: Address)
    ensures HandedTo(list, map[], k, who) == 0
  {
    if list != [] {
      NothingDelegated(list[..|list| - 1], k, who);
    }
  }

  /** The documented band of one to six votes per member holds for every member exactly when nobody has
      delegated: a delegator is left with none. */
  lemma WeightBandIff(s: State)
    requires DelegationInv(s)
    ensures (forall who :: who in s.roster.members ==> 1 <= VotingWeight(s, who) <= 1 + MAX_STAKE_BONUS)
            <==> s.delegations == map[]
  {
    if s.delegations == map[] {
      forall who | who in s.roster.members
        ensures 1 <= VotingWeight(s, who) <= 1 + MAX_STAKE_BONUS
      {
        NothingDelegated(s.roster.list, s.staking.stakes, who);
        StakeBoostMonotone(StakeOf(s.staking.stakes, who), StakeOf(s.staking.stakes, who));
      }
    } else {
      var m :| m in s.delegations;
      assert m in s.roster.members && VotingWeight(s, m) == 0;
    }
  }

  /** More stake, anywhere, never lowers anyone's weight, delegated or not. */
  lemma {:induction false} WeightMonotone(list: seq<Address>, d: map<Address, Address>, k: map<Address, int>,
                                          n: map<Address, int>,
                                          who: Address)
    requires forall a :: StakeOf(k, a) <= StakeOf(n, a)
    ensures Weight(list, d, k, who) <= Weight(list, d, n, who)
  {
    StakeBoostMonotone(StakeOf(k, who), StakeOf(n, who));
    HandedMonotone(list, d, k, n, who);
  }

  lemma {:induction false} HandedMonotone(list: seq<Address>, d: map<Address, Address>, k: map<Address, int>,
                                          n: map<Address, int>,
                                          who: Address)
    requires forall a :: StakeOf(k, a) <= StakeOf(n, a)
    ensures HandedTo(list, d, k, who) <= HandedTo(list, d, n, who)
  {
    if list != [] {
      var m := list[|list| - 1];
      HandedMonotone(list[..|list| - 1], d, k, n, who);
      StakeBoostMonotone(StakeOf(k, m), StakeOf(n, m));
    }
  }
}
