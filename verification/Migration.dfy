/** The seeding batches (`migration.rs`): what loading records from an earlier deployment does to the
    cached totals, for any batch, with addresses repeated or already present. */
module Migration {
  import opened Types
  import opened Arithmetic
  import opened Storage
  import opened Sums
  import opened Books
  import Contributions
  import Membership

  // ---- seed_members ----

  /** One record of the batch: the counters of the record it overwrites are undone first. */
  function SeedMember(r: Roster, m: Member): Result<Roster> {
    var known := m.address in r.members;
    var wasActive := known && r.members[m.address].status == ActiveMember;
    var nowActive := m.status == ActiveMember;
    var kept := if wasActive then SatSub128(r.contributions, Max(r.members[m.address].contribution, 0))
                  else r.contributions;
    var contributions := if nowActive then kept + Max(m.contribution, 0) else kept;
    :- Need(contributions <= I128_MAX, Trapped);
    Success(Roster(
      r.members[m.address := m],
      if known then r.list else r.list + [m.address],
      (if known then SatSub(r.total, 1) else r.total) + 1,
      (if wasActive then SatSub(r.active, 1) else r.active) + if nowActive then 1 else 0,
      contributions))
  }

  function SeedRoster(r: Roster, batch: seq<Member>): Result<Roster> {
    if batch == [] then Success(r)
    else
      var q :- SeedRoster(r, batch[..|batch| - 1]);
      SeedMember(q, batch[|batch| - 1])
  }

  /** The totals after one record; the caller traps when the contributions overflow. */
  method Recount(members: map<Address, Member>, list: seq<Address>, total: nat, active: nat,
                 contributions: int, m: Member)
    returns (list': seq<Address>, total': nat, active': nat, contributions': int)
    ensures SeedMember(Roster(members, list, total, active, contributions), m) ==
            if contributions' > I128_MAX then Failure(Trapped)
            else Success(Roster(members[m.address := m], list', total', active', contributions'))
  {
    list', total', active', contributions' := list, total, active, contributions;
    if m.address in members {
      var previous := members[m.address];
      if previous.status == ActiveMember {
        active' := SatSub(active', 1);
        contributions' := SatSub128(contributions', Max(previous.contribution, 0));
      }
      total' := SatSub(total', 1);
    } else {
      list' := list' + [m.address];
    }
    total' := total' + 1;
    if m.status == ActiveMember {
      active' := active' + 1;
      contributions' := contributions' + Max(m.contribution, 0);
    }
  }

  /** `seed_members`: the totals live in local variables until the batch is through. */
  method SeedMembers(env: Env, batch: seq<Member>) returns (r: Result<()>)
    modifies env`roster
    ensures match SeedRoster(old(env.roster), batch)
            case Success(q) => r.Success? && env.roster == q
            case Failure(e) => r == Failure(e) && env.roster == old(env.roster)
  {
    var before := env.roster;
    var list, total, active, contributions := before.list, before.total, before.active, before.contributions;
    for i := 0 to |batch|
      invariant SeedRoster(before, batch[..i])
                  == Success(Roster(env.roster.members, list, total, active, contributions))
    {
      var m := batch[i];
      ghost var q := Roster(env.roster.members, list, total, active, contributions);
      SeedNext(before, batch, i);
      assert SeedRoster(before, batch[..i + 1]) == SeedMember(q, m);
      list, total, active, contributions := Recount(env.roster.members, list, total, active, contributions, m);
      if contributions > I128_MAX {
        PrefixFails(before, batch, i + 1);
        env.roster := before;
        return Failure(Trapped);
      }
      env.roster := env.roster.(members := env.roster.members[m.address := m]);
    }
    assert batch[..|batch|] == batch;
    env.roster := env.roster.(list := list, total := total, active := active, contributions := contributions);
    return Success(());
  }

  lemma SeedNext(r: Roster, batch: seq<Member>, i: nat)
    requires i < |batch| && SeedRoster(r, batch[..i]).Success?
    ensures SeedRoster(r, batch[..i + 1]) == SeedMember(SeedRoster(r, batch[..i]).value, batch[i])
  {
    assert batch[..i + 1][..i] == batch[..i];
  }

  /** Once a record traps, the whole batch does. */
  lemma {:induction false} PrefixFails(r: Roster, batch: seq<Member>, n: nat)
    requires n <= |batch|
    ensures SeedRoster(r, batch[..n]).Failure? ==> SeedRoster(r, batch) == SeedRoster(r, batch[..n])
    decreases |batch|
  {
    if n == |batch| {
      assert batch[..n] == batch;
    } else {
      var k := |batch| - 1;
      PrefixFails(r, batch[..k], n);
      assert batch[..k][..n] == batch[..n];
    }
  }

  /** Active contributions as seeding counts them: a negative one counts as nothing. */
  ghost function Clamped(ms: map<Address, Member>): map<Address, int> {
    map a | a in ms && ms[a].status == ActiveMember :: Max(ms[a].contribution, 0)
  }

  /** What the cached totals stand for while seeding; contributions may be negative. */
  ghost predicate SeededInv(r: Roster) {
    && NoDuplicates(r.list)
    && (forall a :: a in r.list <==> a in r.members)
    && r.total == |r.list|
    && r.active == |ActiveSet(r.members)|
    && (forall a :: a in r.members ==> r.members[a].address == a)
    && r.contributions == MapSum(Clamped(r.members)) <= I128_MAX
  }

  lemma ClampedUpdate(ms: map<Address, Member>, m: Member)
    ensures var ns := ms[m.address := m];
            && ActiveSet(ns) == (if m.status == ActiveMember then ActiveSet(ms) + {m.address}
                                 else ActiveSet(ms) - {m.address})
            && Clamped(ns) == (if m.status == ActiveMember then Clamped(ms)[m.address := Max(m.contribution, 0)]
                               else Clamped(ms) - {m.address})
  {
  }

  lemma ClampedSum(ms: map<Address, Member>, m: Member)
    ensures
      var before := if m.address in Clamped(ms) then Clamped(ms)[m.address] else 0;
      var after := if m.status == ActiveMember then Max(m.contribution, 0) else 0;
      && MapSum(Clamped(ms[m.address := m])) == MapSum(Clamped(ms)) - before + after
      && 0 <= before <= MapSum(Clamped(ms))
  {
    ClampedUpdate(ms, m);
    MapSumNonNegative(Clamped(ms));
    if m.status == ActiveMember {
      MapSumUpdate(Clamped(ms), m.address, Max(m.contribution, 0));
    } else if m.address in Clamped(ms) {
      MapSumRemove(Clamped(ms), m.address);
    } else {
      assert Clamped(ms) - {m.address} == Clamped(ms);
    }
  }

  /** One record keeps every total exact; none of the saturating subtractions saturates. */
  lemma SeedMemberKeeps(r: Roster, m: Member)
    requires SeededInv(r) && SeedMember(r, m).Success?
    ensures SeededInv(SeedMember(r, m).value)
  {
    var n := SeedMember(r, m).value;
    assert n.members == r.members[m.address := m];
    ClampedSum(r.members, m);
    SeedMemberCounts(r, m);
    SeedMemberListed(r, m);
  }

  lemma SeedMemberListed(r: Roster, m: Member)
    requires SeededInv(r) && SeedMember(r, m).Success?
    ensures var n := SeedMember(r, m).value; NoDuplicates(n.list) && forall a :: a in n.list <==> a in n.members
  {
    ListGrows(r.list, r.members.Keys, m.address);
  }

  lemma SeedMemberCounts(r: Roster, m: Member)
    requires SeededInv(r) && SeedMember(r, m).Success?
    ensures var n := SeedMember(r, m).value; n.total == |n.list| && n.active == |ActiveSet(n.members)|
  {
    ClampedUpdate(r.members, m);
    KnownCounted(r, m.address);
  }

  lemma KnownCounted(r: Roster, a: Address)
    requires SeededInv(r)
    ensures a in r.members ==> r.total >= 1
    ensures a in ActiveSet(r.members) ==> r.active >= 1 && |ActiveSet(r.members) - {a}| == r.active - 1
  {
  }

  /** Any batch, with any repetitions, keeps the totals equal to their sums. */
  lemma {:induction false} SeedingKeepsTotals(r: Roster, batch: seq<Member>)
    requires SeededInv(r) && SeedRoster(r, batch).Success?
    ensures SeededInv(SeedRoster(r, batch).value)
    decreases |batch|
  {
    if batch != [] {
      SeedingKeepsTotals(r, batch[..|batch| - 1]);
      SeedMemberKeeps(SeedRoster(r, batch[..|batch| - 1]).value, batch[|batch| - 1]);
    }
  }

  /** Raising each summand can only raise the sum, and leaves it equal only if nothing was raised. */
  lemma {:induction false} MapSumRaised<K>(m: map<K, int>, n: map<K, int>)
    requires m.Keys == n.Keys && forall k :: k in m ==> m[k] <= n[k]
    ensures MapSum(m) <= MapSum(n)
    ensures MapSum(m) == MapSum(n) <==> m == n
    decreases |m|
  {
    if m == map[] {
      assert n == map[];
    } else {
      var k :| k in m;
      MapSumRemove(m, k);
      MapSumRemove(n, k);
      MapSumRaised(m - {k}, n - {k});
      if m[k] == n[k] && m - {k} == n - {k} {
        forall j | j in m
          ensures m[j] == n[j]
        {
          if j != k { assert j in m - {k} && (m - {k})[j] == (n - {k})[j]; }
        }
      }
    }
  }

  /** The cached contributions equal the O(n) scan exactly when no active record was seeded with a
      negative contribution: the cache clamps at zero, the scan does not. */
  lemma SeededCacheIsScanIff(r: Roster)
    requires SeededInv(r)
    ensures r.contributions == Membership.TotalActiveContributions(r.list, r.members)
            <==> forall a :: a in r.members && r.members[a].status == ActiveMember ==> r.members[a].contribution >= 0
  {
    var raw, clamped := ActiveContributions(r.members), Clamped(r.members);
    Contributions.ScanPrefix(r.list, r.members);
    assert Contributions.Restricted(r.members, Contributions.Listed(r.list)) == raw;
    MapSumRaised(raw, clamped);
    if raw == clamped {
      forall a | a in r.members && r.members[a].status == ActiveMember
        ensures r.members[a].contribution >= 0
      {
        assert raw[a] == clamped[a];
      }
    }
  }

  /** Records with no negative contribution leave the roster as every later run expects it. */
  lemma SeededBooks(r: Roster, batch: seq<Member>)
    requires SeededInv(r) && SeedRoster(r, batch).Success?
    requires var n := SeedRoster(r, batch).value; forall a :: a in n.members ==> n.members[a].contribution >= 0
    ensures var n := SeedRoster(r, batch).value; RosterInv(n) && ContributionsInv(n, 0)
  {
    SeedingKeepsTotals(r, batch);
    var n := SeedRoster(r, batch).value;
    assert Clamped(n.members) == ActiveContributions(n.members);
  }

  // ---- correcting a batch by sending it again ----

  /** The records as the batch leaves them: the last entry of an address wins. */
  ghost function Overwrite(ms: map<Address, Member>, batch: seq<Member>): map<Address, Member> {
    if batch == [] then ms
    else Overwrite(ms, batch[..|batch| - 1])[batch[|batch| - 1].address := batch[|batch| - 1]]
  }

  lemma {:induction false} SeededRecords(r: Roster, batch: seq<Member>)
    requires SeedRoster(r, batch).Success?
    ensures SeedRoster(r, batch).value.members == Overwrite(r.members, batch)
    decreases |batch|
  {
    if batch != [] {
      SeededRecords(r, batch[..|batch| - 1]);
    }
  }

  lemma {:induction false} OverwriteMerges(ms: map<Address, Member>, batch: seq<Member>)
    ensures Overwrite(ms, batch) == ms + Overwrite(map[], batch)
    decreases |batch|
  {
    if batch == [] {
      assert ms + map[] == ms;
    } else {
      OverwriteMerges(ms, batch[..|batch| - 1]);
    }
  }

  /** The totals are a function of the records. */
  lemma RecordsFixTotals(r: Roster, q: Roster)
    requires SeededInv(r) && SeededInv(q) && r.members == q.members
    ensures r.total == q.total && r.active == q.active && r.contributions == q.contributions
  {
    ListedOnce(r.list);
    ListedOnce(q.list);
    assert Contributions.Listed(r.list) == Contributions.Listed(q.list);
  }

  lemma {:induction false} ListedOnce(list: seq<Address>)
    requires NoDuplicates(list)
    ensures |Contributions.Listed(list)| == |list|
  {
    if list == [] {
      assert Contributions.Listed(list) == {};
    } else {
      var n := |list| - 1;
      ListedOnce(list[..n]);
      ListedLast(list[..n], list[n]);
      assert list == list[..n] + [list[n]];
    }
  }

  lemma ListedLast(list: seq<Address>, a: Address)
    ensures Contributions.Listed(list + [a]) == Contributions.Listed(list) + {a}
  {
  }

  /** Re-sending a corrected batch that covers the same addresses erases the first one: the records
      and all three totals come out as if only the correction had been sent. Re-sending the very same
      batch therefore changes nothing. */
  lemma ResendingCorrects(r: Roster, bad: seq<Member>, good: seq<Member>)
    requires SeededInv(r) && SeedRoster(r, bad).Success? && SeedRoster(r, good).Success?
    requires SeedRoster(SeedRoster(r, bad).value, good).Success?
    requires Overwrite(map[], bad).Keys <= Overwrite(map[], good).Keys
    ensures
      var twice, once := SeedRoster(SeedRoster(r, bad).value, good).value, SeedRoster(r, good).value;
      && twice.members == once.members && twice.total == once.total
      && twice.active == once.active && twice.contributions == once.contributions
  {
    var first := SeedRoster(r, bad).value;
    SeedingKeepsTotals(r, bad);
    SeedingKeepsTotals(first, good);
    SeedingKeepsTotals(r, good);
    SeededRecords(r, bad);
    SeededRecords(first, good);
    SeededRecords(r, good);
    Covered(r.members, bad, good);
    RecordsFixTotals(SeedRoster(first, good).value, SeedRoster(r, good).value);
  }

  lemma Covered(ms: map<Address, Member>, bad: seq<Member>, good: seq<Member>)
    requires Overwrite(map[], bad).Keys <= Overwrite(map[], good).Keys
    ensures Overwrite(Overwrite(ms, bad), good) == Overwrite(ms, good)
  {
    OverwriteMerges(ms, bad);
    OverwriteMerges(Overwrite(ms, bad), good);
    OverwriteMerges(ms, good);
    var b, g := Overwrite(map[], bad), Overwrite(map[], good);
    assert (ms + b) + g == ms + g;
  }

  // ---- seed_stakes ----

  datatype StakeEntry = StakeEntry(address: Address, amount: int)

  function SeedStake(k: Staking, e: StakeEntry): Result<Staking> {
    var total := SatSub128(k.total, StakeOf(k.stakes, e.address)) + Max(e.amount, 0);
    :- Need(total <= I128_MAX, Trapped);
    Success(k.(stakes := k.stakes[e.address := e.amount], total := total))
  }

  function SeedStaking(k: Staking, batch: seq<StakeEntry>): Result<Staking> {
    if batch == [] then Success(k)
    else
      var q :- SeedStaking(k, batch[..|batch| - 1]);
      SeedStake(q, batch[|batch| - 1])
  }

  method SeedStakes(env: Env, batch: seq<StakeEntry>) returns (r: Result<()>)
    modifies env`staking
    ensures match SeedStaking(old(env.staking), batch)
            case Success(k) => r.Success? && env.staking == k
            case Failure(e) => r == Failure(e) && env.staking == old(env.staking)
  {
    var before := env.staking;
    var total := before.total;
    for i := 0 to |batch|
      invariant SeedStaking(before, batch[..i]) == Success(env.staking.(total := total))
    {
      assert batch[..i + 1][..i] == batch[..i];
      var previous := StakeOf(env.staking.stakes, batch[i].address);
      total := SatSub128(total, previous) + Max(batch[i].amount, 0);
      if total > I128_MAX {
        StakePrefixFails(before, batch, i + 1);
        env.staking := before;
        return Failure(Trapped);
      }
      env.staking := env.staking.(stakes := env.staking.stakes[batch[i].address := batch[i].amount]);
    }
    assert batch[..|batch|] == batch;
    env.staking := env.staking.(total := total);
    return Success(());
  }

  lemma {:induction false} StakePrefixFails(k: Staking, batch: seq<StakeEntry>, n: nat)
    requires n <= |batch|
    ensures SeedStaking(k, batch[..n]).Failure? ==> SeedStaking(k, batch) == SeedStaking(k, batch[..n])
    decreases |batch|
  {
    if n == |batch| {
      assert batch[..n] == batch;
    } else {
      var j := |batch| - 1;
      StakePrefixFails(k, batch[..j], n);
      assert batch[..j][..n] == batch[..n];
    }
  }

  /** By how much the cached total exceeds the stakes. */
  ghost function Excess(k: Staking): int { k.total - MapSum(k.stakes) }

  /** What a batch adds to the excess: every negative entry, whether or not it is overwritten later. */
  ghost function NegativePart(batch: seq<StakeEntry>): nat {
    if batch == [] then 0 else NegativePart(batch[..|batch| - 1]) + Max(-batch[|batch| - 1].amount, 0)
  }

  ghost function Magnitude(batch: seq<StakeEntry>): nat {
    if batch == [] then 0
    else Magnitude(batch[..|batch| - 1]) + Max(batch[|batch| - 1].amount, -batch[|batch| - 1].amount)
  }

  lemma {:induction false} NoNegativeEntries(batch: seq<StakeEntry>)
    ensures NegativePart(batch) == 0 <==> forall i :: 0 <= i < |batch| ==> batch[i].amount >= 0
  {
    if batch != [] {
      var n := |batch| - 1;
      NoNegativeEntries(batch[..n]);
      assert forall i :: 0 <= i < n ==> batch[..n][i] == batch[i];
    }
  }

  ghost function Positives(stakes: map<Address, int>): map<Address, int> {
    map a | a in stakes :: Max(stakes[a], 0)
  }

  ghost function Negatives(stakes: map<Address, int>): map<Address, int> {
    map a | a in stakes :: Max(-stakes[a], 0)
  }

  /** The total covers the positive stakes, and undoing every negative one stays within `bound`. */
  ghost predicate InRange(k: Staking, bound: int) {
    MapSum(Positives(k.stakes)) <= k.total && k.total + MapSum(Negatives(k.stakes)) <= bound
  }

  lemma PartsUpdate(stakes: map<Address, int>, who: Address, amount: int)
    ensures var n, before := stakes[who := amount], StakeOf(stakes, who);
            && MapSum(Positives(n)) == MapSum(Positives(stakes)) - Max(before, 0) + Max(amount, 0)
            && MapSum(Negatives(n)) == MapSum(Negatives(stakes)) - Max(-before, 0) + Max(-amount, 0)
            && 0 <= Max(before, 0) <= MapSum(Positives(stakes))
            && 0 <= Max(-before, 0) <= MapSum(Negatives(stakes))
  {
    assert Positives(stakes[who := amount]) == Positives(stakes)[who := Max(amount, 0)];
    assert Negatives(stakes[who := amount]) == Negatives(stakes)[who := Max(-amount, 0)];
    PartUpdate(Positives(stakes), who, Max(amount, 0));
    PartUpdate(Negatives(stakes), who, Max(-amount, 0));
  }

  lemma PartUpdate(m: map<Address, int>, who: Address, v: int)
    requires forall a :: a in m ==> m[a] >= 0
    ensures MapSum(m[who := v]) == MapSum(m) - StakeOf(m, who) + v
    ensures 0 <= StakeOf(m, who) <= MapSum(m)
  {
    MapSumUpdate(m, who, v);
    MapSumNonNegative(m);
  }

  /** Within range the subtraction does not saturate, so one entry adds its negative part to the excess. */
  lemma SeedStakeExcess(k: Staking, e: StakeEntry, bound: int)
    requires InRange(k, bound) && bound + Max(e.amount, -e.amount) <= I128_MAX
    ensures SeedStake(k, e).Success?
    ensures var n := SeedStake(k, e).value;
            Excess(n) == Excess(k) + Max(-e.amount, 0) && InRange(n, bound + Max(e.amount, -e.amount))
  {
    MapSumUpdate(k.stakes, e.address, e.amount);
    PartsUpdate(k.stakes, e.address, e.amount);
  }

  lemma {:induction false} SeedingExcess(k: Staking, batch: seq<StakeEntry>, bound: int)
    requires InRange(k, bound) && bound + Magnitude(batch) <= I128_MAX
    ensures SeedStaking(k, batch).Success?
    ensures var n := SeedStaking(k, batch).value;
            Excess(n) == Excess(k) + NegativePart(batch) && InRange(n, bound + Magnitude(batch))
    decreases |batch|
  {
    if batch != [] {
      var n := |batch| - 1;
      SeedingExcess(k, batch[..n], bound);
      SeedStakeExcess(SeedStaking(k, batch[..n]).value, batch[n], bound + Magnitude(batch[..n]));
    }
  }

  lemma NonNegativeParts(stakes: map<Address, int>)
    requires forall a :: a in stakes ==> stakes[a] >= 0
    ensures Positives(stakes) == stakes && MapSum(Negatives(stakes)) == 0
  {
    MapSumNonNegative(Negatives(stakes));
    MapSumBounded(Negatives(stakes), 0);
  }

  ghost predicate NoNegatives(batch: seq<StakeEntry>) {
    forall i :: 0 <= i < |batch| ==> batch[i].amount >= 0
  }

  ghost predicate ExactStakes(k: Staking) {
    k.total == MapSum(k.stakes) && forall a :: a in k.stakes ==> k.stakes[a] >= 0
  }

  /** Several calls, one batch each. */
  function SeedCalls(k: Staking, calls: seq<seq<StakeEntry>>): Result<Staking> {
    if calls == [] then Success(k)
    else
      var q :- SeedCalls(k, calls[..|calls| - 1]);
      SeedStaking(q, calls[|calls| - 1])
  }

  ghost function CallsMagnitude(calls: seq<seq<StakeEntry>>): nat {
    if calls == [] then 0 else CallsMagnitude(calls[..|calls| - 1]) + Magnitude(calls[|calls| - 1])
  }

  lemma {:induction false} CallsInRange(k: Staking, calls: seq<seq<StakeEntry>>, bound: int)
    requires InRange(k, bound) && bound + CallsMagnitude(calls) <= I128_MAX
    ensures SeedCalls(k, calls).Success?
    ensures InRange(SeedCalls(k, calls).value, bound + CallsMagnitude(calls))
    ensures Excess(SeedCalls(k, calls).value) >= Excess(k)
    ensures Excess(SeedCalls(k, calls).value) == Excess(k) <==> forall i :: 0 <= i < |calls| ==> NoNegatives(calls[i])
    decreases |calls|
  {
    if calls != [] {
      var n := |calls| - 1;
      CallsInRange(k, calls[..n], bound);
      SeedingExcess(SeedCalls(k, calls[..n]).value, calls[n], bound + CallsMagnitude(calls[..n]));
      NoNegativeEntries(calls[n]);
      assert forall i :: 0 <= i < n ==> calls[..n][i] == calls[i];
    }
  }

  /** Any number of calls, with any repetitions within and among their batches, leave the cached total equal
      to the sum of stakes exactly when no entry of any of them is negative. */
  lemma SeededStakesExactIff(k: Staking, calls: seq<seq<StakeEntry>>)
    requires ExactStakes(k) && k.total + CallsMagnitude(calls) <= I128_MAX
    ensures SeedCalls(k, calls).Success?
    ensures var n := SeedCalls(k, calls).value;
            n.total == MapSum(n.stakes) <==> forall i :: 0 <= i < |calls| ==> NoNegatives(calls[i])
  {
    NonNegativeParts(k.stakes);
    CallsInRange(k, calls, k.total);
  }

  /** The amount a batch leaves at each address it names. */
  ghost function LastAmounts(batch: seq<StakeEntry>): map<Address, int> {
    if batch == [] then map[]
    else LastAmounts(batch[..|batch| - 1])[batch[|batch| - 1].address := batch[|batch| - 1].amount]
  }

  lemma {:induction false} StakesOverwritten(k: Staking, batch: seq<StakeEntry>)
    requires SeedStaking(k, batch).Success?
    ensures SeedStaking(k, batch).value.stakes == k.stakes + LastAmounts(batch)
    ensures SeedStaking(k, batch).value.times == k.times
    decreases |batch|
  {
    if batch != [] {
      StakesOverwritten(k, batch[..|batch| - 1]);
    }
  }

  lemma ResentStakes(k: Staking, bad: seq<StakeEntry>, good: seq<StakeEntry>)
    requires SeedStaking(k, bad).Success? && SeedStaking(k, good).Success?
    requires SeedStaking(SeedStaking(k, bad).value, good).Success?
    requires LastAmounts(bad).Keys <= LastAmounts(good).Keys
    ensures var twice, once := SeedStaking(SeedStaking(k, bad).value, good).value, SeedStaking(k, good).value;
            twice.stakes == once.stakes && twice.times == once.times
  {
    StakesOverwritten(k, bad);
    StakesOverwritten(SeedStaking(k, bad).value, good);
    StakesOverwritten(k, good);
    assert k.stakes + LastAmounts(bad) + LastAmounts(good) == k.stakes + LastAmounts(good);
  }

  lemma ResentExcess(k: Staking, bad: seq<StakeEntry>, good: seq<StakeEntry>)
    requires ExactStakes(k) && k.total + Magnitude(bad) + Magnitude(good) <= I128_MAX
    ensures SeedStaking(k, bad).Success? && SeedStaking(k, good).Success?
    ensures SeedStaking(SeedStaking(k, bad).value, good).Success?
    ensures Excess(SeedStaking(k, good).value) == NegativePart(good)
    ensures Excess(SeedStaking(SeedStaking(k, bad).value, good).value) == NegativePart(bad) + NegativePart(good)
  {
    NonNegativeParts(k.stakes);
    SeedingExcess(k, bad, k.total);
    SeedingExcess(SeedStaking(k, bad).value, good, k.total + Magnitude(bad));
    SeedingExcess(k, good, k.total);
  }

  /** Re-sending a correction that covers the same addresses always puts the stakes right. The total comes out
      as if only the correction had been sent exactly when the first batch had no negative entry, and as the
      sum of the stakes exactly when neither had one. */
  lemma ResendingStakesIff(k: Staking, bad: seq<StakeEntry>, good: seq<StakeEntry>)
    requires ExactStakes(k) && k.total + Magnitude(bad) + Magnitude(good) <= I128_MAX
    requires LastAmounts(bad).Keys <= LastAmounts(good).Keys
    ensures SeedStaking(k, bad).Success? && SeedStaking(k, good).Success?
    ensures SeedStaking(SeedStaking(k, bad).value, good).Success?
    ensures
      var twice, once := SeedStaking(SeedStaking(k, bad).value, good).value, SeedStaking(k, good).value;
      && twice.stakes == once.stakes
      && twice.total == once.total + NegativePart(bad)
      && (twice == once <==> NoNegatives(bad))
      && (twice.total == MapSum(twice.stakes) <==> NoNegatives(bad) && NoNegatives(good))
  {
    ResentExcess(k, bad, good);
    ResentStakes(k, bad, good);
    NoNegativeEntries(bad);
    NoNegativeEntries(good);
  }

  /** Five sent as minus five by mistake, then corrected to ten: the stake is ten and the total fifteen. */
  lemma NegativeStakeSticks()
    ensures
      var k := Staking(map[], 0, map[]);
      var first := SeedStaking(k, [StakeEntry(0, -5)]);
      && first.Success?
      && var second := SeedStaking(first.value, [StakeEntry(0, 10)]);
      && second.Success? && second.value.stakes == map[0 := 10] && second.value.total == 15
      && MapSum(second.value.stakes) == 10
  {
    var k := Staking(map[], 0, map[]);
    var bad, good := [StakeEntry(0, -5)], [StakeEntry(0, 10)];
    assert bad[..0] == [] && good[..0] == [];
    MapSumUpdate<Address>(map[], 0, 10);
    ResendingStakesIff(k, bad, good);
    assert SeedStaking(k, good) == Success(Staking(map[0 := 10], 10, map[]));
  }

  // ---- seed_pending_yield ----

  datatype YieldEntry = YieldEntry(address: Address, amount: int)

  function SeedYields(snapshots: map<Address, int>, batch: seq<YieldEntry>): map<Address, int> {
    if batch == [] then snapshots
    else SeedYields(snapshots, batch[..|batch| - 1])[batch[|batch| - 1].address := -Max(batch[|batch| - 1].amount, 0)]
  }

  method SeedPendingYield(env: Env, batch: seq<YieldEntry>)
    modifies env`accrual
    ensures env.accrual == old(env.accrual).(snapshots := SeedYields(old(env.accrual.snapshots), batch))
  {
    var before := env.accrual;
    for i := 0 to |batch|
      invariant env.accrual == before.(snapshots := SeedYields(before.snapshots, batch[..i]))
    {
      assert batch[..i + 1][..i] == batch[..i];
      env.accrual := env.accrual.(snapshots := env.accrual.snapshots[batch[i].address := -Max(batch[i].amount, 0)]);
    }
    assert batch[..|batch|] == batch;
  }

  /** The amount the batch last names for an address. */
  ghost function SeededAmount(batch: seq<YieldEntry>, who: Address): Option<int> {
    if batch == [] then None
    else if batch[|batch| - 1].address == who then Some(batch[|batch| - 1].amount)
    else SeededAmount(batch[..|batch| - 1], who)
  }

  /** Snapshots below zero reconstruct the migrated yield: on a zero accumulator the pending amount is
      what the batch last said, clamped at zero; any interest shared before seeding comes on top. */
  lemma {:induction false} SeededYieldPending(y: Accrual, batch: seq<YieldEntry>, who: Address)
    requires y.accumulator >= 0
    ensures Membership.PendingYield(y.(snapshots := SeedYields(y.snapshots, batch)), who) ==
            match SeededAmount(batch, who)
            case Some(amount) => y.accumulator + Max(amount, 0)
            case None => Membership.PendingYield(y, who)
    decreases |batch|
  {
    if batch != [] {
      SeededYieldPending(y, batch[..|batch| - 1], who);
    }
  }
}
