/** Voting weight and delegation (`util.rs`, `delegate_vote`). */
module Voting {
  import opened Types
  import opened Arithmetic
  import opened Storage

  /** A member's own votes: one, plus the stake boost. */
  function OwnVotes(stakes: map<Address, int>, who: Address): int {
    1 + StakeBoost(StakeOf(stakes, who))
  }

  predicate DelegatesTo(delegations: map<Address, Address>, m: Address, who: Address) {
    m in delegations && delegations[m] == who
  }

  /** The votes that members of `list` have handed to `who`. */
  function HandedTo(list: seq<Address>, delegations: map<Address, Address>, stakes: map<Address, int>,
                    who: Address): int {
    if list == [] then 0
    else
      var m := list[|list| - 1];
      HandedTo(list[..|list| - 1], delegations, stakes, who)
      + if DelegatesTo(delegations, m, who) then OwnVotes(stakes, m) else 0
  }

  function Weight(list: seq<Address>, delegations: map<Address, Address>, stakes: map<Address, int>,
                  who: Address): int {
    if who in delegations then 0
    else OwnVotes(stakes, who) + HandedTo(list, delegations, stakes, who)
  }

  /** `voting_weight` in the current state. */
  function VotingWeight(s: State, who: Address): int {
    Weight(s.roster.list, s.delegations, s.staking.stakes, who)
  }

  /** Every stored stake is an `i128`. */
  ghost predicate StakesFit(stakes: map<Address, int>) {
    forall a :: a in stakes ==> InI128(stakes[a])
  }

  /** `voting_weight`: the loop over the member list. */
  method ComputeVotingWeight(env: Env, who: Address) returns (total: int)
    requires StakesFit(env.staking.stakes)
    ensures total == VotingWeight(env.View(), who)
  {
    if who in env.delegations {
      return 0;
    }
    var boost := ComputeStakeBoost(StakeOf(env.staking.stakes, who));
    total := 1 + boost;
    var list := env.roster.list;
    for i := 0 to |list|
      invariant total == OwnVotes(env.staking.stakes, who)
                         + HandedTo(list[..i], env.delegations, env.staking.stakes, who)
    {
      var m := list[i];
      assert list[..i + 1][..i] == list[..i];
      if m in env.delegations && env.delegations[m] == who {
        boost := ComputeStakeBoost(StakeOf(env.staking.stakes, m));
        total := total + 1 + boost;
      }
    }
    assert list[..|list|] == list;
  }

  /** `delegate_vote`. */
  function DelegateStep(s: State, delegator: Address, delegatee: Address): Result<State> {
    if s.config.paused then Failure(Paused) else
    :- RequireActive(s.roster, delegator);
    :- RequireActive(s.roster, delegatee);
    :- Need(delegator != delegatee, InvalidDelegation);
    Success(s.(delegations := s.delegations[delegator := delegatee]))
  }

  method DelegateVote(env: Env, delegator: Address, delegatee: Address) returns (r: Result<()>)
    modifies env`delegations
    ensures Follows(old(env.View()), env.View(), DelegateStep(old(env.View()), delegator, delegatee), r)
  {
    if env.config.paused { return Failure(Paused); }
    :- RequireActive(env.roster, delegator);
    :- RequireActive(env.roster, delegatee);
    if delegator == delegatee { return Failure(InvalidDelegation); }
    env.delegations := env.delegations[delegator := delegatee];
    return Success(());
  }
}
