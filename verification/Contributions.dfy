/** The cached total of active contributions against the O(n) scan it replaces: when they agree, by
    how much they can drift apart, and what the drift does to exit shares. */
module Contributions {
  import opened Types
  import opened Storage
  import opened Sums
  import opened System
  import opened Frames
  import opened TreasuryOps
  import opened Membership
  import opened Books
  import Lending

  // ---- the scan is the sum ----

  ghost function Listed(list: seq<Address>): set<Address> {
    set a | a in list
  }

  ghost function Restricted(ms: map<Address, Member>, keys: set<Address>): map<Address, int> {
    map a | a in ms && a in keys && ms[a].status == ActiveMember :: ms[a].contribution
  }

  lemma {:induction false} ScanPrefix(list: seq<Address>, ms: map<Address, Member>)
    requires NoDuplicates(list)
    ensures TotalActiveContributions(list, ms) == MapSum(Restricted(ms, Listed(list)))
  {
    if list == [] {
      assert Restricted(ms, Listed(list)) == map[];
    } else {
      var n := |list| - 1;
      var a, rest := list[n], list[..n];
      ScanPrefix(rest, ms);
      assert a !in Listed(rest);
      assert Listed(list) == Listed(rest) + {a};
      var before, after := Restricted(ms, Listed(rest)), Restricted(ms, Listed(list));
      if a in ms && ms[a].status == ActiveMember {
        assert after == before[a := ms[a].contribution];
        MapSumUpdate(before, a, ms[a].contribution);
      } else {
        assert after == before;
      }
    }
  }

  /** The scan of the member list is the sum over active records, each counted once. */
  lemma ScanIsSum(r: Roster)
    requires RosterInv(r)
    ensures TotalActiveContributions(r.list, r.members) == MapSum(ActiveContributions(r.members))
  {
    ScanPrefix(r.list, r.members);
    assert Restricted(r.members, Listed(r.list)) == ActiveContributions(r.members);
  }

  // ---- when the cache agrees with the scan ----

  /** What one step adds to the slashes of borrowers who had already left. */
  ghost function LeaverSlash(s: State, a: Action): int {
    if a.MarkDefaulted? && Lending.DefaultStep(s, a.id).Success?
       && s.loans.loans[a.id].borrower in s.roster.members && !IsActive(s.roster, s.loans.loans[a.id].borrower)
    then Lending.DefaultPenalty(s.roster.members[s.loans.loans[a.id].borrower].contribution,
                                s.config.policy.defaultPenaltyBps)
    else 0
  }

  lemma DefaultSlash(s: State, id: Id)
    requires BooksInv(s) && Lending.DefaultStep(s, id).Success?
    ensures Lending.DefaultStep(s, id).value.history.slashedInactive
              == s.history.slashedInactive + LeaverSlash(s, MarkDefaulted(id))
    ensures LeaverSlash(s, MarkDefaulted(id)) >= 0
  {
    var who := s.loans.loans[id].borrower;
    if who in s.roster.members {
      DefaultPenaltyBounds(s.roster.members[who].contribution, s.config.policy.defaultPenaltyBps);
      assert who in s.history.ledger.credit <==> who in ActiveSet(s.roster.members);
    }
  }

  lemma LendSlash(c: Crypto, s: State, a: Action)
    requires LendAction(a) && AttemptLend(s, a).Success?
    ensures AttemptLend(s, a).value.history.slashedInactive == s.history.slashedInactive
  {
    match a
    case VoteLoan(who, id, support) => CastLoanVoteFrame(s, who, id, support);
    case VoteLoans(who, votes) => CastLoanVotesFrame(s, who, votes);
    case Disburse(id) => DisburseFrame(s, id);
  }

  lemma RepaySlash(c: Crypto, s: State, a: Action)
    requires ServiceAction(a) && !a.MarkDefaulted? && AttemptService(s, a).Success?
    ensures AttemptService(s, a).value.history.slashedInactive == s.history.slashedInactive
  {
    match a
    case Repay(who, id, requested) => RepayFrame(s, who, id, requested);
    case RepayInAsset(who, id, _) => RepayFrame(s, who, id, None);
  }

  lemma StepSlash(c: Crypto, s: State, a: Action)
    requires BooksInv(s)
    ensures Step(c, s, a).history.slashedInactive == s.history.slashedInactive + LeaverSlash(s, a)
    ensures LeaverSlash(s, a) >= 0
  {
    if LendAction(a) {
      if Attempt(c, s, a).Success? {
        LendSlash(c, s, a);
      }
    } else if a.MarkDefaulted? {
      if Lending.DefaultStep(s, a.id).Success? {
        DefaultSlash(s, a.id);
      }
    } else if ServiceAction(a) {
      if Attempt(c, s, a).Success? {
        RepaySlash(c, s, a);
      }
    } else if MemberAction(a) {
      MemberFrame(c, s, a);
    } else if TreasuryAction(a) {
      TreasuryFrame(c, s, a);
    } else if ProposalAction(a) {
      ProposalFrame(c, s, a);
    } else {
      EnvironmentFrame(c, s, a);
    }
  }

  /** No default along the run takes a positive slash from a borrower who has left. */
  ghost predicate LeaversUnslashed(c: Crypto, s: State, actions: seq<Action>)
    decreases |actions|
  {
    actions == [] || (LeaverSlash(s, actions[0]) == 0 && LeaversUnslashed(c, Step(c, s, actions[0]), actions[1..]))
  }

  lemma {:induction false} RunSlash(c: Crypto, s: State, actions: seq<Action>)
    requires BooksInv(s)
    ensures Run(c, s, actions).history.slashedInactive >= s.history.slashedInactive
    ensures Run(c, s, actions).history.slashedInactive == s.history.slashedInactive <==> LeaversUnslashed(c, s, actions)
    decreases |actions|
  {
    if actions != [] {
      StepSlash(c, s, actions[0]);
      StepBooks(c, s, actions[0]);
      RunSlash(c, Step(c, s, actions[0]), actions[1..]);
    }
  }

  ghost predicate CacheExact(s: State) {
    s.roster.contributions == TotalActiveContributions(s.roster.list, s.roster.members)
  }

  /** From a state where nothing has drifted (initialisation is one), the cached total equals the
      scan exactly in the runs where no default slashes a borrower who has left. */
  lemma CacheAgreesIff(c: Crypto, s: State, actions: seq<Action>)
    requires BooksInv(s) && s.history.slashedInactive == 0
    ensures CacheExact(Run(c, s, actions)) <==> LeaversUnslashed(c, s, actions)
  {
    RunBooks(c, s, actions);
    RunSlash(c, s, actions);
    Drift(Run(c, s, actions));
  }

  /** In every state the cached total falls short of the scan by precisely those slashes. */
  lemma Drift(t: State)
    requires BooksInv(t)
    ensures t.roster.contributions
              == TotalActiveContributions(t.roster.list, t.roster.members) - t.history.slashedInactive
  {
    ScanIsSum(t.roster);
  }
}
