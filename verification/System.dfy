/** The contract as a transition system: every entrypoint is an action, and a run is a sequence of
    actions from the state that `initialize` leaves behind. */
module System {
  import opened Types
  import opened History
  import opened Storage
  import Voting
  import Membership
  import StakingOps
  import opened TreasuryOps
  import Lending

  datatype Action =
    // the environment: time passes, administrators govern, tokens move outside the contract
    | Tick(seconds: nat)
    | Govern(policy: Policy, threshold: nat, paused: bool, whitelist: set<Address>)
    | OutsideTransfer(asset: Address, holder: Address, balance: nat)
    // membership and staking
    | Register(who: Address)
    | Exit(who: Address)
    | Claim(who: Address)
    | Delegate(who: Address, delegatee: Address)
    | StakeTokens(who: Address, amount: int)
    | UnstakeTokens(who: Address, amount: int)
    // loans
    | RequestLoan(who: Address, amount: int, asset: Address, cid: Option<string>)
    | EditLoan(who: Address, id: Id, amount: int)
    | CancelLoan(who: Address, id: Id)
    | VoteLoan(who: Address, id: Id, support: bool)
    | VoteLoans(who: Address, votes: seq<ProposalVote>)
    | Disburse(id: Id)
    | Repay(who: Address, id: Id, requested: Option<int>)
    | RepayInAsset(who: Address, id: Id, asset: Address)
    | ExpireLoan(id: Id)
    | MarkDefaulted(id: Id)
    // treasury
    | Propose(who: Address, amount: int, asset: Address, destination: Address, reason: string, isPrivate: bool)
    | VoteTreasury(who: Address, id: Id, support: bool)
    | Commit(who: Address, id: Id, digest: Bytes32)
    | RevealVote(who: Address, id: Id, support: bool, salt: Bytes32)
    | ExecuteTreasury(id: Id)
    | CancelTreasury(who: Address, id: Id)
    | ExpireTreasury(id: Id)

  /** Ledger time is a `u64` and never decreases. */
  function TickStep(s: State, seconds: nat): Result<State> {
    var later := s.now + seconds;
    :- Need(later <= U64_MAX, Trapped);
    Success(s.(now := later))
  }

  /** Wallets change at will; the contract's own balance only grows unless it pays. */
  function OutsideStep(s: State, asset: Address, holder: Address, balance: nat): Result<State> {
    if holder == s.config.self && balance < Balance(s.balances, asset, holder) then Failure(Trapped) else
    Success(s.(balances := s.balances[(asset, holder) := balance]))
  }

  predicate EnvironmentAction(a: Action) {
    a.Tick? || a.Govern? || a.OutsideTransfer? || a.Delegate?
  }

  predicate MemberAction(a: Action) {
    a.Register? || a.Exit? || a.Claim? || a.StakeTokens? || a.UnstakeTokens?
  }

  predicate ProposalAction(a: Action) {
    a.RequestLoan? || a.EditLoan? || a.CancelLoan? || a.ExpireLoan?
  }

  /** Actions that may pay out a loan. */
  predicate LendAction(a: Action) {
    a.VoteLoan? || a.VoteLoans? || a.Disburse?
  }

  /** Actions on a loan that has been paid out. */
  predicate ServiceAction(a: Action) {
    a.Repay? || a.RepayInAsset? || a.MarkDefaulted?
  }

  predicate DebtAction(a: Action) {
    LendAction(a) || ServiceAction(a)
  }

  predicate TreasuryAction(a: Action) {
    a.Propose? || a.VoteTreasury? || a.Commit? || a.RevealVote? || a.ExecuteTreasury? || a.CancelTreasury?
    || a.ExpireTreasury?
  }

  function AttemptEnvironment(s: State, a: Action): Result<State>
    requires EnvironmentAction(a)
  {
    match a
    case Tick(seconds) => TickStep(s, seconds)
    case Govern(policy, threshold, paused, whitelist) =>
      Success(s.(config := s.config.(policy := policy, threshold := threshold, paused := paused,
                                     whitelist := whitelist)))
    case OutsideTransfer(asset, holder, balance) => OutsideStep(s, asset, holder, balance)
    case Delegate(who, delegatee) => Voting.DelegateStep(s, who, delegatee)
  }

  function AttemptMember(s: State, a: Action): Result<State>
    requires MemberAction(a)
  {
    match a
    case Register(who) => Membership.RegisterStep(s, who)
    case Exit(who) => Membership.ExitStep(s, who)
    case Claim(who) => Membership.ClaimStep(s, who)
    case StakeTokens(who, amount) => StakingOps.StakeStep(s, who, amount)
    case UnstakeTokens(who, amount) => StakingOps.UnstakeStep(s, who, amount)
  }

  function AttemptProposal(s: State, a: Action): Result<State>
    requires ProposalAction(a)
  {
    match a
    case RequestLoan(who, amount, asset, cid) => Lending.RequestStep(s, who, amount, asset, cid)
    case EditLoan(who, id, amount) => Lending.EditStep(s, who, id, amount)
    case CancelLoan(who, id) => Lending.CancelLoanStep(s, who, id)
    case ExpireLoan(id) => Lending.ExpireLoanStep(s, id)
  }

  function AttemptLend(s: State, a: Action): Result<State>
    requires LendAction(a)
  {
    match a
    case VoteLoan(who, id, support) => Lending.LoanVoteStep(s, who, id, support)
    case VoteLoans(who, votes) => Lending.VoteBatchStep(s, who, votes)
    case Disburse(id) => Lending.DisburseStep(s, id)
  }

  function AttemptService(s: State, a: Action): Result<State>
    requires ServiceAction(a)
  {
    match a
    case Repay(who, id, requested) => Lending.RepayStep(s, who, id, requested)
    case RepayInAsset(who, id, asset) => Lending.RepayInAssetStep(s, who, id, asset)
    case MarkDefaulted(id) => Lending.DefaultStep(s, id)
  }

  function AttemptTreasury(c: Crypto, s: State, a: Action): Result<State>
    requires TreasuryAction(a)
  {
    match a
    case Propose(who, amount, asset, destination, reason, isPrivate) =>
      ProposeStep(s, who, amount, asset, destination, reason, isPrivate)
    case VoteTreasury(who, id, support) => VoteStep(s, who, id, support)
    case Commit(who, id, digest) => CommitStep(s, who, id, digest)
    case RevealVote(who, id, support, salt) => RevealStep(c, s, who, id, support, salt)
    case ExecuteTreasury(id) => ExecuteApprovedStep(s, id)
    case CancelTreasury(who, id) => CancelStep(s, who, id)
    case ExpireTreasury(id) => ExpireStep(s, id)
  }

  function Attempt(c: Crypto, s: State, a: Action): Result<State> {
    if EnvironmentAction(a) then AttemptEnvironment(s, a)
    else if MemberAction(a) then AttemptMember(s, a)
    else if ProposalAction(a) then AttemptProposal(s, a)
    else if LendAction(a) then AttemptLend(s, a)
    else if ServiceAction(a) then AttemptService(s, a)
    else AttemptTreasury(c, s, a)
  }

  /** A failed attempt changes nothing. */
  function Step(c: Crypto, s: State, a: Action): State {
    match Attempt(c, s, a)
    case Success(s') => s'
    case Failure(_) => s
  }

  function Run(c: Crypto, s: State, actions: seq<Action>): State
    decreases |actions|
  {
    if actions == [] then s else Run(c, Step(c, s, actions[0]), actions[1..])
  }

  const NO_MEMBERS := Roster(map[], [], 0, 0, 0)
  const NO_LOANS := LoanBook(0, map[], map[], map[], {})
  const NO_WITHDRAWALS := TreasuryBook(0, map[], map[], {}, map[])

  /** A freshly initialised contract; tokens may lie in any wallet, its own included. */
  ghost predicate Initial(s: State) {
    && s.now <= U64_MAX
    && s.config.fee > 0
    && s.roster == NO_MEMBERS
    && s.staking == Staking(map[], 0, map[])
    && s.accrual == Accrual(0, 0, map[])
    && s.delegations == map[]
    && s.loans == NO_LOANS
    && s.treasury == NO_WITHDRAWALS
    && s.quota == map[]
    && s.history == EMPTY_HISTORY
  }
}
