/** Everything that holds in every reachable state of the contract. */
module Reachability {
  import opened Types
  import opened Storage
  import opened TreasuryOps
  import opened System
  import Books
  import Lifecycle
  import Credit
  import Ballots
  import Withdrawals
  import Quota
  import Delegation
  import Interest

  ghost predicate Inv(c: Crypto, s: State) {
    && Books.BooksInv(s)
    && Lifecycle.LifeInv(s)
    && Credit.CreditInv(s)
    && Ballots.LoanBallotInv(s.loans, s.history.loanBallots)
    && Withdrawals.WithdrawalInv(c, s)
    && Quota.QuotaInv(s)
    && Delegation.DelegationInv(s)
    && Interest.HandedInv(s.history)
  }

  lemma InitialInv(c: Crypto, s: State)
    requires Initial(s)
    ensures Inv(c, s)
  {
    Books.InitialBooks(s);
    Lifecycle.InitialLife(s);
    Credit.InitialCredit(s);
    Ballots.InitialLoanBallots(s);
    Withdrawals.InitialWithdrawal(c, s);
    Quota.InitialQuota(s);
    Delegation.InitialDelegation(s);
    Interest.InitialHanded(s);
  }

  lemma StepInv(c: Crypto, s: State, a: Action)
    requires Inv(c, s)
    ensures Inv(c, Step(c, s, a))
  {
    Books.StepBooks(c, s, a);
    Lifecycle.StepLife(c, s, a);
    Credit.StepCredit(c, s, a);
    Ballots.StepLoanBallots(c, s, a);
    Withdrawals.StepWithdrawal(c, s, a);
    Quota.StepQuota(c, s, a);
    Delegation.StepDelegation(c, s, a);
    Interest.StepHanded(c, s, a);
  }

  /** Every run keeps every invariant. */
  lemma {:induction false} RunInv(c: Crypto, s: State, actions: seq<Action>)
    requires Inv(c, s)
    ensures Inv(c, Run(c, s, actions))
    decreases |actions|
  {
    if actions != [] {
      StepInv(c, s, actions[0]);
      RunInv(c, Step(c, s, actions[0]), actions[1..]);
    }
  }

  /** The run so far, and one more successful action. */
  lemma {:induction false} Next(c: Crypto, s: State, actions: seq<Action>, a: Action, t: State, u: State)
    requires t == Run(c, s, actions) && Attempt(c, t, a) == Success(u)
    ensures u == Run(c, s, actions + [a])
    decreases |actions|
  {
    if actions == [] {
      assert (actions + [a])[1..] == [];
    } else {
      Next(c, Step(c, s, actions[0]), actions[1..], a, t, u);
      assert (actions + [a])[1..] == actions[1..] + [a];
    }
  }

  ghost predicate Reachable(c: Crypto, t: State) {
    exists s, actions :: Initial(s) && t == Run(c, s, actions)
  }

  lemma ReachableInv(c: Crypto, t: State)
    requires Reachable(c, t)
    ensures Inv(c, t)
  {
    var s, actions :| Initial(s) && t == Run(c, s, actions);
    InitialInv(c, s);
    RunInv(c, s, actions);
  }
}
