/** Exit shares: never more than the treasury at any moment, and fair whatever the order in which
    members leave. */
module Exits {
  import opened Types
  import opened Arithmetic
  import opened Storage
  import opened Sums
  import opened TreasuryOps
  import opened System
  import opened Membership
  import opened Books

  function Treasury(s: State): int { TreasuryIn(s, s.config.token) }

  // ---- one moment ----

  ghost function Shares(s: State): map<Address, int> {
    map a | a in s.roster.members && s.roster.members[a].status == ActiveMember :: ExitShare(s, a)
  }

  lemma FloorBounds(t: int, c: int, total: int)
    requires t > 0 && c > 0 && total > 0
    ensures var q := TruncDiv(t * c, total); q >= 0 && q * total <= t * c < (q + 1) * total
  {
    MulNonNegative(t, c);
  }

  lemma MulCancel(a: int, b: int, c: int)
    requires c > 0 && a * c <= b * c
    ensures a <= b
  {
    if a > b {
      MulMonotone(b + 1, a, c);
    }
  }

  /** What a share keeps back of `treasury * contribution`: the remainder of the floor, or all of it when
      the product overflows and the share is nothing. */
  ghost function KeptBack(t: int, c: int, total: int): int
    requires total > 0
  {
    if t * c <= I128_MAX then t * c % total else t * c
  }

  ghost function Kept(s: State): map<Address, int>
    requires s.roster.contributions > 0
  {
    map a | a in s.roster.members && s.roster.members[a].status == ActiveMember ::
      KeptBack(Treasury(s), s.roster.members[a].contribution, s.roster.contributions)
  }

  lemma ShareDivides(t: int, c: int, total: int)
    requires t > 0 && total > 0 && c >= 0
    ensures ShareFromContributions(t, c, total) * total + KeptBack(t, c, total) == t * c
    ensures 0 <= KeptBack(t, c, total)
    ensures t * c <= I128_MAX ==> KeptBack(t, c, total) <= total
  {
    MulNonNegative(t, c);
    if c == 0 {
      assert t * c == 0;
    }
  }

  lemma SharesDivide(s: State)
    requires RosterInv(s.roster) && Treasury(s) > 0 && s.roster.contributions > 0
    ensures MapSum(Shares(s)) * s.roster.contributions + MapSum(Kept(s))
            == Treasury(s) * MapSum(ActiveContributions(s.roster.members))
  {
    var t, total := Treasury(s), s.roster.contributions;
    var m, q, r := ActiveContributions(s.roster.members), Shares(s), Kept(s);
    forall a | a in m
      ensures q[a] * total + r[a] == t * m[a]
    {
      ShareDivides(t, m[a], total);
    }
    MapSumDivided(m, q, r, total, t);
  }

  lemma NoShares(s: State)
    requires Treasury(s) <= 0 || s.roster.contributions <= 0
    ensures MapSum(Shares(s)) == 0
  {
    MapSumDivided(Shares(s), Shares(s), Shares(s), 0, 1);
    MapSumBounded(Shares(s), 0);
    MapSumNonNegative(Shares(s));
  }

  lemma DividedCovered(t: int, total: int, slashed: int, shares: int, kept: int, sum: int)
    requires total > 0 && sum == total + slashed && shares * total + kept == t * sum
    ensures shares <= t <==> t * slashed <= kept
  {
    assert t * sum == t * total + t * slashed;
    if shares <= t {
      MulMonotone(shares, t, total);
    } else {
      MulMonotone(t + 1, shares, total);
    }
  }

  /** Paying everyone their share at once stays within the treasury exactly when what defaults have slashed
      from borrowers who had left, taken at the treasury's worth, does not outweigh what the shares keep
      back; an empty treasury, or an empty cache, offers nothing. */
  lemma SharesCoveredIff(s: State)
    requires RosterInv(s.roster) && ContributionsInv(s.roster, s.history.slashedInactive)
    ensures MapSum(Shares(s)) <= Max(Treasury(s), 0)
            <==> (Treasury(s) > 0 && s.roster.contributions > 0
                  ==> Treasury(s) * s.history.slashedInactive <= MapSum(Kept(s)))
  {
    if Treasury(s) > 0 && s.roster.contributions > 0 {
      SharesDivide(s);
      DividedCovered(Treasury(s), s.roster.contributions, s.history.slashedInactive, MapSum(Shares(s)), MapSum(Kept(s)),
                     MapSum(ActiveContributions(s.roster.members)));
    } else {
      NoShares(s);
    }
  }

  lemma KeptBounds(s: State)
    requires RosterInv(s.roster) && Treasury(s) > 0 && s.roster.contributions > 0
    ensures MapSum(Kept(s)) >= 0
    ensures (forall a :: a in ActiveSet(s.roster.members)
               ==> Treasury(s) * s.roster.members[a].contribution <= I128_MAX)
            ==> MapSum(Kept(s)) <= s.roster.contributions * s.roster.active
  {
    var r := Kept(s);
    forall a | a in r
      ensures r[a] >= 0
      ensures Treasury(s) * s.roster.members[a].contribution <= I128_MAX ==> r[a] <= s.roster.contributions
    {
      ShareDivides(Treasury(s), s.roster.members[a].contribution, s.roster.contributions);
    }
    MapSumNonNegative(r);
    if forall a :: a in ActiveSet(s.roster.members) ==> Treasury(s) * s.roster.members[a].contribution <= I128_MAX {
      assert r.Keys == ActiveSet(s.roster.members) && |r.Keys| == |r|;
      MapSumBounded(r, s.roster.contributions);
    }
  }

  /** So without such slashes the shares never exceed the treasury, */
  lemma SharesWithinTreasury(s: State)
    requires BooksInv(s) && s.history.slashedInactive == 0
    ensures MapSum(Shares(s)) <= Max(Treasury(s), 0)
  {
    SharesCoveredIff(s);
    if Treasury(s) > 0 && s.roster.contributions > 0 {
      KeptBounds(s);
    }
  }

  /** and they always do once the slashes outweigh one unit per member, scaled by the cache. */
  lemma SharesOverdrawTreasury(s: State)
    requires RosterInv(s.roster) && ContributionsInv(s.roster, s.history.slashedInactive)
    requires Treasury(s) > 0 && s.roster.contributions > 0
    requires forall a :: a in ActiveSet(s.roster.members) ==> Treasury(s) * s.roster.members[a].contribution <= I128_MAX
    requires Treasury(s) * s.history.slashedInactive > s.roster.active * s.roster.contributions
    ensures MapSum(Shares(s)) > Treasury(s)
  {
    SharesCoveredIff(s);
    KeptBounds(s);
  }

  // ---- everyone leaves ----

  ghost predicate CanLeave(s: State, a: Address)
    requires a in s.roster.members
  {
    var m := s.roster.members[a];
    && !m.hasActiveLoan && m.contribution > 0
    && PendingYield(s.accrual, a) == 0
    && a != s.config.self
    && Treasury(s) * m.contribution <= I128_MAX
  }

  ghost predicate ReadyToLeave(s: State) {
    && BooksInv(s) && s.history.slashedInactive == 0
    && !s.config.paused
    && Treasury(s) >= 0
    && forall a :: a in ActiveSet(s.roster.members) ==> CanLeave(s, a)
  }

  /** The exact share of one leaver. */
  lemma LeaverShare(s: State, who: Address)
    requires ReadyToLeave(s) && who in ActiveSet(s.roster.members)
    ensures IsActive(s.roster, who) && CanLeave(s, who)
    ensures
      var t, c, total := Treasury(s), s.roster.members[who].contribution, s.roster.contributions;
      var share := ExitShare(s, who);
      && 0 < c <= total
      && 0 <= share <= t && share * total <= t * c < (share + 1) * total
      && (c == total ==> share == t)
  {
    assert CanLeave(s, who);
    ContributionBound(s.roster, who);
    ShareOf(Treasury(s), s.roster.members[who].contribution, s.roster.contributions);
  }

  lemma ShareOf(t: int, c: int, total: int)
    requires t >= 0 && 0 < c <= total && t * c <= I128_MAX
    ensures var share := ShareFromContributions(t, c, total);
            && 0 <= share <= t && share * total <= t * c < (share + 1) * total
            && (c == total ==> share == t)
  {
    if t > 0 {
      var share := ShareFromContributions(t, c, total);
      FloorBounds(t, c, total);
      MulMonotone(c, total, t);
      MulCancel(share, t, total);
      if c == total && share < t {
        MulMonotone(share + 1, t, total);
      }
    }
  }

  lemma ContributionBound(r: Roster, who: Address)
    requires RosterInv(r) && ContributionsInv(r, 0) && who in ActiveSet(r.members)
    ensures r.members[who].contribution <= r.contributions
  {
    var m := ActiveContributions(r.members);
    MapSumRemove(m, who);
    MapSumNonNegative(m - {who});
  }

  lemma StakeBound(k: Staking, ms: map<Address, Member>, who: Address)
    requires StakingInv(k, ms)
    ensures 0 <= StakeOf(k.stakes, who) <= k.total
  {
    MapSumNonNegative(k.stakes);
  }

  /** A covered exit goes through; its effects, record by record. */
  lemma ExitSucceeds(s: State, who: Address)
    requires !s.config.paused && IsActive(s.roster, who) && !s.roster.members[who].hasActiveLoan && s.roster.active > 0
    requires PendingYield(s.accrual, who) == 0 && who != s.config.self
    requires 0 <= ExitShare(s, who) <= Treasury(s) && 0 <= StakeOf(s.staking.stakes, who) <= s.staking.total
    ensures ExitStep(s, who).Success?
    ensures var t := ExitStep(s, who).value;
            && t.roster == Departed(s.roster, who) && t.config == s.config
            && t.history.slashedInactive == s.history.slashedInactive
            && t.accrual == s.accrual.(snapshots := s.accrual.snapshots[who := s.accrual.accumulator])
            && Treasury(t) == Treasury(s) - ExitShare(s, who)
  {
  }

  /** One exit succeeds, pays its share out of the treasury, and leaves the rest ready, with at
      least as much treasury per contribution as before. */
  lemma OneLeaves(s: State, who: Address)
    requires ReadyToLeave(s) && who in ActiveSet(s.roster.members)
    ensures ExitStep(s, who).Success?
    ensures
      var t := ExitStep(s, who).value;
      && Treasury(t) == Treasury(s) - ExitShare(s, who)
      && s.roster.active > 0 && t.roster == Departed(s.roster, who)
      && ActiveSet(t.roster.members) == ActiveSet(s.roster.members) - {who}
      && ReadyToLeave(t)
  {
    LeaverShare(s, who);
    StakeBound(s.staking, s.roster.members, who);
    MemberLeaves(s.roster, who, 0);
    ExitSucceeds(s, who);
    ExitBooks(s, who);
    OthersCanLeave(s, ExitStep(s, who).value, who);
  }

  lemma OthersCanLeave(s: State, t: State, who: Address)
    requires forall a :: a in ActiveSet(s.roster.members) ==> CanLeave(s, a) && s.roster.members[a].contribution >= 0
    requires who in s.roster.members && s.roster.active > 0 && t.roster == Departed(s.roster, who)
    requires t.config == s.config && Treasury(t) <= Treasury(s)
    requires t.accrual == s.accrual.(snapshots := s.accrual.snapshots[who := s.accrual.accumulator])
    ensures forall a :: a in ActiveSet(t.roster.members) ==> CanLeave(t, a)
  {
    forall a | a in ActiveSet(t.roster.members)
      ensures CanLeave(t, a)
    {
      assert a in ActiveSet(s.roster.members) && CanLeave(s, a);
      MulMonotone(Treasury(t), Treasury(s), s.roster.members[a].contribution);
    }
  }

  lemma Diluted(t: int, share: int, c: int, total: int)
    requires share * total <= t * c
    ensures (t - share) * total >= t * (total - c)
  {
  }

  ghost function Leaving(order: seq<Address>): seq<Action> {
    if order == [] then [] else [Exit(order[0])] + Leaving(order[1..])
  }

  /** What each leaver is paid as a share, in turn. */
  ghost function SharesPaid(c: Crypto, s: State, order: seq<Address>): (paid: seq<int>)
    ensures |paid| == |order|
    decreases |order|
  {
    if order == [] then [] else [ExitShare(s, order[0])] + SharesPaid(c, Step(c, s, Exit(order[0])), order[1..])
  }

  ghost function Total(xs: seq<int>): int {
    if xs == [] then 0 else xs[0] + Total(xs[1..])
  }

  ghost function SetOf(order: seq<Address>): set<Address> {
    set a | a in order
  }

  lemma Unfold(order: seq<Address>)
    requires order != [] && NoDuplicates(order)
    ensures NoDuplicates(order[1..]) && SetOf(order[1..]) == SetOf(order) - {order[0]}
    ensures Leaving(order)[0] == Exit(order[0]) && Leaving(order)[1..] == Leaving(order[1..])
  {
    forall a | a in SetOf(order) - {order[0]}
      ensures a in order[1..]
    {
    }
  }

  /** A share taken where the treasury per contribution is no lower than at the start. */
  lemma NoWorseOff(t: int, total: int, c: int, share: int, t0: int, total0: int)
    requires t0 >= 0 && total0 > 0 && total > 0 && c > 0
    requires t * total0 >= t0 * total
    requires t * c < (share + 1) * total
    ensures share >= t0 * c / total0
  {
    var q := t0 * c / total0;
    MulNonNegative(t0, c);
    assert q * total0 <= t0 * c;
    if share < q {
      Chain(t, total, c, q, t0, total0);
      MulMonotone(share + 1, q, total);
    }
  }

  lemma Chain(t: int, total: int, c: int, q: int, t0: int, total0: int)
    requires total0 > 0 && total > 0 && c > 0
    requires t * total0 >= t0 * total && q * total0 <= t0 * c
    ensures q * total <= t * c
  {
    MulMonotone(q * total0, t0 * c, total);
    MulMonotone(t0 * total, t * total0, c);
    assert (q * total) * total0 == (q * total0) * total;
    assert (t0 * c) * total == (t0 * total) * c;
    assert (t * total0) * c == (t * c) * total0;
    MulCancel(q * total, t * c, total0);
  }

  /** What a sequence of exits by everyone amounts to. */
  ghost predicate FairlyPaid(c: Crypto, s: State, order: seq<Address>, t0: int, total0: int) {
    var t := Run(c, s, Leaving(order));
    var paid := SharesPaid(c, s, order);
    && ActiveSet(t.roster.members) == {}
    && Treasury(t) == (if order == [] then Treasury(s) else 0)
    && Total(paid) == Treasury(s) - Treasury(t)
    && PaidAtLeast(paid, order, s.roster.members, t0, total0)
  }

  ghost predicate PaidAtLeast(paid: seq<int>, order: seq<Address>, ms: map<Address, Member>, t0: int, total0: int) {
    && |paid| == |order| && total0 > 0
    && forall i :: 0 <= i < |order| ==> order[i] in ms && paid[i] >= t0 * ms[order[i]].contribution / total0
  }

  /** Whatever the order, everyone can leave; together they are paid exactly the treasury, and each
      at least the floor of the original pro-rata share: no earlier exit dilutes a later one. */
  lemma {:induction false} EveryoneLeaves(c: Crypto, s: State, order: seq<Address>, t0: int, total0: int)
    requires ReadyToLeave(s) && NoDuplicates(order) && SetOf(order) == ActiveSet(s.roster.members)
    requires t0 >= 0 && total0 > 0 && Treasury(s) * total0 >= t0 * s.roster.contributions
    ensures FairlyPaid(c, s, order, t0, total0)
    decreases |order|
  {
    if order != [] {
      FirstLeaves(s, order, t0, total0);
      var s1 := ExitStep(s, order[0]).value;
      EveryoneLeaves(c, s1, order[1..], t0, total0);
      FairlyPrepended(c, s, s1, order, t0, total0);
    }
  }

  /** Measured against the treasury and the contributions at the start: whatever the order, everyone is
      paid at least the floor of the pro-rata share, and together exactly the treasury. */
  lemma EveryoneIsPaidFairly(c: Crypto, s: State, order: seq<Address>)
    requires ReadyToLeave(s) && NoDuplicates(order) && SetOf(order) == ActiveSet(s.roster.members)
    requires order != []
    ensures FairlyPaid(c, s, order, Treasury(s), s.roster.contributions)
  {
    assert order[0] in SetOf(order);
    LeaverShare(s, order[0]);
    EveryoneLeaves(c, s, order, Treasury(s), s.roster.contributions);
  }

  /** Everything the induction needs about the first exit. */
  lemma FirstLeaves(s: State, order: seq<Address>, t0: int, total0: int)
    requires order != []
    requires ReadyToLeave(s) && NoDuplicates(order) && SetOf(order) == ActiveSet(s.roster.members)
    requires t0 >= 0 && total0 > 0 && Treasury(s) * total0 >= t0 * s.roster.contributions
    ensures order[0] in s.roster.members && ExitStep(s, order[0]).Success?
    ensures NoDuplicates(order[1..])
    ensures
      var s1 := ExitStep(s, order[0]).value;
      && ReadyToLeave(s1) && SetOf(order[1..]) == ActiveSet(s1.roster.members)
      && Treasury(s1) * total0 >= t0 * s1.roster.contributions
      && Treasury(s1) == Treasury(s) - ExitShare(s, order[0])
      && (order[1..] == [] ==> Treasury(s1) == 0)
      && ExitShare(s, order[0]) >= t0 * s.roster.members[order[0]].contribution / total0
      && s1.roster.members
         == s.roster.members[order[0] := s.roster.members[order[0]].(status := Inactive, shareBalance := 0)]
  {
    var who := order[0];
    assert who in SetOf(order);
    Unfold(order);
    OneLeaves(s, who);
    var s1 := ExitStep(s, who).value;
    LeaverShare(s, who);
    LeavingRatio(s, s1, who, t0, total0);
    if order[1..] == [] {
      LastLeaver(s, who, s1);
    }
  }

  lemma FairlyPrepended(c: Crypto, s: State, s1: State, order: seq<Address>, t0: int, total0: int)
    requires order != [] && NoDuplicates(order) && order[0] in s.roster.members
    requires ExitStep(s, order[0]).Success? && s1 == ExitStep(s, order[0]).value
    requires FairlyPaid(c, s1, order[1..], t0, total0)
    requires Treasury(s1) == Treasury(s) - ExitShare(s, order[0])
    requires order[1..] == [] ==> Treasury(s1) == 0
    requires total0 > 0 && ExitShare(s, order[0]) >= t0 * s.roster.members[order[0]].contribution / total0
    requires s1.roster.members
               == s.roster.members[order[0] := s.roster.members[order[0]].(status := Inactive, shareBalance := 0)]
    ensures FairlyPaid(c, s, order, t0, total0)
  {
    ExitIsStep(c, s, order[0]);
    Unfold(order);
    PaidPrepended(ExitShare(s, order[0]), SharesPaid(c, s1, order[1..]), order, s.roster.members, s1.roster.members,
                  t0, total0);
    assert SharesPaid(c, s, order) == [ExitShare(s, order[0])] + SharesPaid(c, s1, order[1..]);
  }

  lemma ExitIsStep(c: Crypto, s: State, who: Address)
    requires ExitStep(s, who).Success?
    ensures Step(c, s, Exit(who)) == ExitStep(s, who).value
  {
  }

  lemma LeavingRatio(s: State, t: State, who: Address, t0: int, total0: int)
    requires who in s.roster.members && s.roster.active > 0 && t.roster == Departed(s.roster, who)
    requires Treasury(t) == Treasury(s) - ExitShare(s, who)
    requires t0 >= 0 && total0 > 0 && Treasury(s) * total0 >= t0 * s.roster.contributions
    requires var c, total, share := s.roster.members[who].contribution, s.roster.contributions, ExitShare(s, who);
             0 < c <= total && share * total <= Treasury(s) * c < (share + 1) * total
    ensures Treasury(t) * total0 >= t0 * t.roster.contributions
    ensures ExitShare(s, who) >= t0 * s.roster.members[who].contribution / total0
  {
    RatioAfter(Treasury(s), s.roster.contributions, s.roster.members[who].contribution, ExitShare(s, who), t0, total0);
  }

  lemma RatioAfter(t: int, total: int, c: int, share: int, t0: int, total0: int)
    requires t0 >= 0 && total0 > 0 && 0 < c <= total && t * total0 >= t0 * total
    requires share * total <= t * c < (share + 1) * total
    ensures (t - share) * total0 >= t0 * (total - c)
    ensures share >= t0 * c / total0
  {
    Diluted(t, share, c, total);
    RatioKept(t, total, t - share, total - c, t0, total0);
    NoWorseOff(t, total, c, share, t0, total0);
  }

  lemma PaidPrepended(share: int, rest: seq<int>, order: seq<Address>, ms: map<Address, Member>,
                      ns: map<Address, Member>,
                      t0: int, total0: int)
    requires order != [] && NoDuplicates(order) && order[0] in ms
    requires PaidAtLeast(rest, order[1..], ns, t0, total0)
    requires share >= t0 * ms[order[0]].contribution / total0
    requires forall a :: a in ns && a != order[0] ==> a in ms && ns[a] == ms[a]
    ensures PaidAtLeast([share] + rest, order, ms, t0, total0)
    ensures Total([share] + rest) == share + Total(rest)
  {
    var paid := [share] + rest;
    assert paid[1..] == rest;
    forall i | 0 <= i < |order|
      ensures order[i] in ms && paid[i] >= t0 * ms[order[i]].contribution / total0
    {
      if i > 0 {
        assert order[1..][i - 1] == order[i] != order[0];
      }
    }
  }

  /** The last leaver holds all contributions and takes all that is left. */
  lemma LastLeaver(s: State, who: Address, t: State)
    requires ReadyToLeave(s) && who in ActiveSet(s.roster.members)
    requires BooksInv(t) && t.history.slashedInactive == 0
    requires s.roster.active > 0 && t.roster == Departed(s.roster, who) && ActiveSet(t.roster.members) == {}
    requires Treasury(t) == Treasury(s) - ExitShare(s, who)
    ensures Treasury(t) == 0
  {
    assert ActiveContributions(t.roster.members) == map[] by {
      assert forall a :: a in ActiveContributions(t.roster.members) ==> a in ActiveSet(t.roster.members);
    }
    LeaverShare(s, who);
  }

  lemma RatioKept(t: int, total: int, t1: int, total1: int, t0: int, total0: int)
    requires total > 0 && total1 >= 0 && total0 > 0
    requires t * total0 >= t0 * total && t1 * total >= t * total1
    ensures t1 * total0 >= t0 * total1
  {
    MulMonotone(t0 * total, t * total0, total1);
    MulMonotone(t * total1, t1 * total, total0);
    assert (t * total0) * total1 == (t * total1) * total0;
    assert (t1 * total) * total0 == (t1 * total0) * total;
    assert (t0 * total) * total1 == (t0 * total1) * total;
    MulCancel(t0 * total1, t1 * total0, total);
  }
}
