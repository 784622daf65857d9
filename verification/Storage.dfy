/** The contract's storage (`storage.rs`): the records behind every `DataKey`, grouped by concern,
    their accessors, and the mutable environment the entrypoints run against. */
module Storage {
  import opened Types
  import opened Arithmetic
  import opened History

  /** Singletons that only administration changes. `self` is the contract's own address. */
  datatype Config = Config(
    self: Address,
    token: Address,
    fee: nat,
    policy: Policy,
    threshold: nat,
    paused: bool,
    whitelist: set<Address>)

  datatype Roster = Roster(
    members: map<Address, Member>,
    list: seq<Address>,
    total: nat,
    active: nat,
    contributions: int)

  datatype Staking = Staking(stakes: map<Address, int>, total: int, times: map<Address, nat>)

  datatype Accrual = Accrual(accumulator: int, remainder: int, snapshots: map<Address, int>)

  datatype LoanBook = LoanBook(
    next: Id,
    proposals: map<Id, LoanProposal>,
    loans: map<Id, Loan>,
    assets: map<Id, Address>,
    voted: set<(Id, Address)>)

  datatype TreasuryBook = TreasuryBook(
    next: Id,
    proposals: map<Id, TreasuryProposal>,
    assets: map<Id, Address>,
    voted: set<(Id, Address)>,
    commits: map<(Id, Address), Bytes32>)

  /** Token holdings by (asset, holder). */
  type Balances = map<(Address, Address), int>

  datatype State = State(
    now: nat,
    config: Config,
    roster: Roster,
    staking: Staking,
    accrual: Accrual,
    delegations: map<Address, Address>,
    loans: LoanBook,
    treasury: TreasuryBook,
    quota: map<Address, nat>,
    balances: Balances,
    history: History)

  // ---- accessors ----

  function Balance(b: Balances, asset: Address, holder: Address): int {
    if (asset, holder) in b then b[(asset, holder)] else 0
  }

  /** A token transfer; the host traps when the payer cannot cover it. */
  function Transfer(b: Balances, asset: Address, from: Address, to: Address, amount: int): Result<Balances> {
    if amount < 0 || Balance(b, asset, from) < amount then
      Failure(Trapped)
    else
      var paid := b[(asset, from) := Balance(b, asset, from) - amount];
      Success(paid[(asset, to) := Balance(paid, asset, to) + amount])
  }

  predicate IsActive(r: Roster, who: Address) {
    who in r.members && r.members[who].status == ActiveMember
  }

  /** `require_active_member`. */
  function RequireActive(r: Roster, who: Address): Guard {
    if who !in r.members then Fail(NotMember)
    else if r.members[who].status != ActiveMember then Fail(MemberNotActive)
    else Pass
  }

  function StakeOf(stakes: map<Address, int>, who: Address): int {
    if who in stakes then stakes[who] else 0
  }

  function SnapshotOf(y: Accrual, who: Address): int {
    if who in y.snapshots then y.snapshots[who] else 0
  }

  function AssetOf(assets: map<Id, Address>, id: Id, token: Address): Address {
    if id in assets then assets[id] else token
  }

  function LoanAsset(s: State, id: Id): Address { AssetOf(s.loans.assets, id, s.config.token) }

  function TreasuryAsset(s: State, id: Id): Address { AssetOf(s.treasury.assets, id, s.config.token) }

  /** `treasury_balance_in_asset`: staked funds are excluded for the base token alone. */
  function TreasuryIn(s: State, asset: Address): int {
    var held := Balance(s.balances, asset, s.config.self);
    if asset == s.config.token then held - s.staking.total else held
  }

  // ---- the open-proposal quota ----

  function LoanDeadline(p: LoanProposal): nat {
    SatAdd64(p.editingPeriodEnd, p.votingPeriod)
  }

  function TreasuryDeadline(p: TreasuryProposal): nat {
    SatAdd64(p.createdAt, SatMul64(p.votingPeriod, if p.isPrivate then 2 else 1))
  }

  predicate LoanOpen(p: LoanProposal, now: nat) {
    p.status == Pending && now <= LoanDeadline(p)
  }

  predicate TreasuryOpen(p: TreasuryProposal, now: nat) {
    p.status == Pending && now <= TreasuryDeadline(p)
  }

  predicate LoanOpenFor(b: LoanBook, id: Id, who: Address, now: nat) {
    id in b.proposals && b.proposals[id].borrower == who && LoanOpen(b.proposals[id], now)
  }

  predicate WithdrawalOpenFor(b: TreasuryBook, id: Id, who: Address, now: nat) {
    id in b.proposals && b.proposals[id].proposer == who && TreasuryOpen(b.proposals[id], now)
  }

  /** The member's open loan requests among the ids below `n`. */
  function OpenLoans(b: LoanBook, who: Address, now: nat, n: nat): nat
    requires n <= b.next
  {
    if n == 0 then 0
    else OpenLoans(b, who, now, n - 1) + if LoanOpenFor(b, n - 1, who, now) then 1 else 0
  }

  function OpenWithdrawals(b: TreasuryBook, who: Address, now: nat, n: nat): nat
    requires n <= b.next
  {
    if n == 0 then 0
    else OpenWithdrawals(b, who, now, n - 1) + if WithdrawalOpenFor(b, n - 1, who, now) then 1 else 0
  }

  function OpenCount(s: State, who: Address): nat {
    OpenLoans(s.loans, who, s.now, s.loans.next) + OpenWithdrawals(s.treasury, who, s.now, s.treasury.next)
  }

  /** `get_open_proposals` as an effect: it refreshes the member's cached count. */
  function WithQuota(s: State, who: Address): State {
    s.(quota := s.quota[who := OpenCount(s, who)])
  }

  function WithLoanProposal(s: State, p: LoanProposal): State {
    WithQuota(s.(loans := s.loans.(proposals := s.loans.proposals[p.id := p])), p.borrower)
  }

  function WithTreasuryProposal(s: State, p: TreasuryProposal): State {
    WithQuota(s.(treasury := s.treasury.(proposals := s.treasury.proposals[p.id := p])), p.proposer)
  }

  /** How an entrypoint relates to its specification: success commits the specified state, an
      error leaves everything as it was. */
  ghost predicate Follows<T>(before: State, after: State, spec: Result<State>, r: Result<T>) {
    match spec
    case Success(s) => r.Success? && after == s
    case Failure(e) => r == Failure(e) && after == before
  }

  /** The ledger the contract runs on. */
  class Env {
    var now: nat
    var config: Config
    var roster: Roster
    var staking: Staking
    var accrual: Accrual
    var delegations: map<Address, Address>
    var loans: LoanBook
    var treasury: TreasuryBook
    var quota: map<Address, nat>
    var balances: Balances
    var history: History

    function View(): State
      reads this
    {
      State(now, config, roster, staking, accrual, delegations, loans, treasury, quota, balances, history)
    }

    method Emit(e: Event)
      modifies this`history
      ensures history == Record(old(history), e)
    {
      history := Record(history, e);
    }

    /** `token.transfer`; the caller reverts when it traps. */
    method Pay(asset: Address, from: Address, to: Address, amount: int) returns (ok: bool)
      modifies this`balances
      ensures var t := Transfer(old(balances), asset, from, to, amount);
              && ok == t.Success?
              && balances == if t.Success? then t.value else old(balances)
    {
      var t := Transfer(balances, asset, from, to, amount);
      ok := t.Success?;
      if ok {
        balances := t.value;
      }
    }

    /** `get_open_proposals`: counts the live proposals of a member and caches the count. */
    method GetOpenProposals(who: Address) returns (count: nat)
      modifies this`quota
      ensures View() == WithQuota(old(View()), who)
      ensures count == OpenCount(old(View()), who)
    {
      count := 0;
      for id := 0 to loans.next
        invariant View() == old(View())
        invariant count == OpenLoans(loans, who, now, id)
      {
        if id in loans.proposals {
          var p := loans.proposals[id];
          if p.borrower == who && p.status == Pending
             && now <= SatAdd64(p.editingPeriodEnd, p.votingPeriod) {
            count := count + 1;
          }
        }
      }
      for id := 0 to treasury.next
        invariant View() == old(View())
        invariant count == OpenLoans(loans, who, now, loans.next) + OpenWithdrawals(treasury, who, now, id)
      {
        if id in treasury.proposals {
          var p := treasury.proposals[id];
          if p.proposer == who && p.status == Pending
             && now <= SatAdd64(p.createdAt, SatMul64(p.votingPeriod, if p.isPrivate then 2 else 1)) {
            count := count + 1;
          }
        }
      }
      quota := quota[who := count];
    }

    method SetLoanProposal(p: LoanProposal)
      modifies this`loans, this`quota
      ensures View() == WithLoanProposal(old(View()), p)
    {
      loans := loans.(proposals := loans.proposals[p.id := p]);
      var _ := GetOpenProposals(p.borrower);
    }

    method SetTreasuryProposal(p: TreasuryProposal)
      modifies this`treasury, this`quota
      ensures View() == WithTreasuryProposal(old(View()), p)
    {
      treasury := treasury.(proposals := treasury.proposals[p.id := p]);
      var _ := GetOpenProposals(p.proposer);
    }
  }
}
