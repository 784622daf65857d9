/** The contract's data types: error codes, enums and records of `types.rs` and `error.rs`.
    Money is `int` and time is `nat`; the machine widths appear as named bounds where the code
    checks or saturates against them. */
module Types {
  const BASIS_POINTS: nat := 10_000
  const I128_MAX: int := 0x7FFF_FFFF_FFFF_FFFF_FFFF_FFFF_FFFF_FFFF
  const I128_MIN: int := -0x8000_0000_0000_0000_0000_0000_0000_0000
  const U64_MAX: nat := 0xFFFF_FFFF_FFFF_FFFF
  const U32_MAX: nat := 0xFFFF_FFFF
  const THIRTY_DAYS: nat := 30 * 24 * 60 * 60
  const MAX_OPEN_PROPOSALS: nat := 3
  const MAX_STAKE_BONUS: int := 5

  /** An account or contract address; only equality matters. */
  type Address = nat

  /** A proposal or loan id (`u32`). */
  type Id = n: nat | n <= U32_MAX

  datatype Option<+T> = None | Some(value: T)

  datatype Error =
    | InvalidAmount | Paused | NotAuthorized | NotMember | AlreadyMember
    | MemberNotActive | HasActiveLoan
    | ProposalNotFound | NotBorrower | NotInEditingPhase | NotInVotingPhase | VotingEnded
    | AlreadyVoted | NotEligibleForLoan | CooldownActive | LoanNotFound | LoanNotActive
    | ExceedsTreasuryRatio | InsufficientTreasury | LoanNotOverdue
    | TreasuryProposalNotFound
    | NoStake | InsufficientStake | NoCommitment | CommitmentMismatch | AlreadyRevealed
    | NothingToClaim
    | ProposalNotExpired | NotYetRevealed | DocumentTooLarge | InvalidMetadataCid
    | InvalidDelegation | InvalidProposal | TokenNotWhitelisted | AssetMismatch
    | TooManyOpenProposals | BorrowerCannotVote
    | Trapped  // a host trap (failed transfer, counter overflow): reverts like an error

  /** The outcome of a step: an `Err` reverts everything the step wrote. */
  datatype Result<+T> = Success(value: T) | Failure(error: Error) {
    predicate IsFailure() { Failure? }

    function PropagateFailure<U>(): Result<U>
      requires Failure?
    {
      Failure(error)
    }

    function Extract(): T
      requires Success?
    {
      value
    }
  }

  datatype Guard = Pass | Fail(error: Error) {
    predicate IsFailure() { Fail? }

    function PropagateFailure<U>(): Result<U>
      requires Fail?
    {
      Failure(error)
    }
  }

  function Need(condition: bool, error: Error): Guard {
    if condition then Pass else Fail(error)
  }

  datatype MemberStatus = ActiveMember | Inactive

  datatype ProposalStatus =
    Pending | ApprovedPendingDisbursement | Approved | Rejected | Executed | Expired | Cancelled

  datatype ProposalPhase = EditingPhase | VotingPhase | ExecutedPhase | ExpiredPhase

  datatype LoanStatus = Active | Repaid | Defaulted

  datatype Member = Member(
    address: Address,
    status: MemberStatus,
    joinTime: nat,
    contribution: int,
    shareBalance: int,
    hasActiveLoan: bool,
    lastLoanTime: nat,
    totalLoans: nat,
    repaidLoans: nat,
    activeLoans: nat)

  datatype RawPolicy = RawPolicy(
    minMembershipDuration: nat,
    membershipContribution: int,
    maxLoanDuration: nat,
    minInterestRate: nat,
    maxInterestRate: nat,
    cooldownPeriod: nat,
    maxLoanToTreasuryRatio: nat,
    defaultGracePeriod: nat,
    defaultPenaltyBps: nat,
    editingPeriod: nat,
    votingPeriod: nat,
    treasuryThreshold: nat,
    quorumBps: nat)

  /** `validate_policy`: every policy the contract ever stores passed this check. */
  predicate ValidPolicy(p: RawPolicy) {
    && p.membershipContribution > 0
    && p.maxLoanDuration != 0
    && p.minInterestRate <= p.maxInterestRate <= BASIS_POINTS
    && 0 < p.maxLoanToTreasuryRatio <= BASIS_POINTS
    && p.defaultPenaltyBps <= BASIS_POINTS
    && 0 < p.editingPeriod <= THIRTY_DAYS
    && 0 < p.votingPeriod <= THIRTY_DAYS
    && p.minMembershipDuration <= THIRTY_DAYS
    && p.cooldownPeriod <= THIRTY_DAYS
    && p.defaultGracePeriod <= THIRTY_DAYS
    && 0 < p.treasuryThreshold <= BASIS_POINTS
    && p.quorumBps <= BASIS_POINTS
  }

  type Policy = p: RawPolicy | ValidPolicy(p)
    witness RawPolicy(0, 1, 1, 0, 0, 0, 1, 0, 0, 1, 1, 1, 0)

  datatype LoanProposal = LoanProposal(
    id: Id,
    borrower: Address,
    amount: nat,
    interestRate: nat,
    duration: nat,
    totalRepayment: int,
    createdAt: nat,
    editingPeriodEnd: nat,
    phase: ProposalPhase,
    status: ProposalStatus,
    forVotes: int,
    againstVotes: int,
    votesCast: nat,
    votingPeriod: nat,
    metadataCid: Option<string>,
    lastEditedAt: Option<nat>)

  datatype Loan = Loan(
    id: Id,
    borrower: Address,
    principal: int,
    interestRate: nat,
    totalRepayment: int,
    startTime: nat,
    dueTime: nat,
    status: LoanStatus,
    amountRepaid: int)

  datatype TreasuryProposal = TreasuryProposal(
    id: Id,
    proposer: Address,
    amount: nat,
    destination: Address,
    reason: string,
    createdAt: nat,
    status: ProposalStatus,
    forVotes: int,
    againstVotes: int,
    votesCast: nat,
    votingPeriod: nat,
    treasuryThreshold: nat,
    isPrivate: bool)

  datatype LoanTerms = LoanTerms(interestRate: nat, totalRepayment: int, duration: nat)

  datatype ProposalVote = ProposalVote(proposalId: Id, vote: bool)

  newtype byte = x: int | 0 <= x < 256

  /** Stand-in for `BytesN<32>`: a salt, or a digest. */
  type Bytes32 = s: seq<byte> | |s| == 32 witness seq(32, _ => 0)
}
