/** Withdrawal proposals (`treasury.rs`) and commit-reveal ballots on them (`privacy.rs`). */
module TreasuryOps {
  import opened Types
  import opened Arithmetic
  import opened History
  import opened Storage
  import opened Voting

  predicate Whitelisted(c: Config, asset: Address) {
    asset == c.token || asset in c.whitelist
  }

  predicate Reserved(b: LoanBook, token: Address, asset: Address, id: Id) {
    && id in b.proposals
    && b.proposals[id].status == ApprovedPendingDisbursement
    && AssetOf(b.assets, id, token) == asset
  }

  /** `reserved_loan_commitments`: approved loans of `asset` not yet paid out, over ids below `n`. */
  function ReservedCommitments(b: LoanBook, token: Address, asset: Address, n: nat): int
    requires n <= b.next
  {
    if n == 0 then 0
    else
      ReservedCommitments(b, token, asset, n - 1)
      + if Reserved(b, token, asset, n - 1) then b.proposals[n - 1].amount else 0
  }

  function Available(s: State, asset: Address): int {
    TreasuryIn(s, asset) - ReservedCommitments(s.loans, s.config.token, asset, s.loans.next)
  }

  /** What is checked before a withdrawal proposal is opened, in the order it is checked. */
  function ProposalCheck(s: State, proposer: Address, amount: int, asset: Address, destination: Address,
                         reason: string): Guard {
    if s.config.paused then Fail(Paused)
    else if RequireActive(s.roster, proposer).Fail? then RequireActive(s.roster, proposer)
    else if amount <= 0 then Fail(InvalidAmount)
    else if destination == s.config.self || |reason| == 0 || |reason| > 256 then Fail(InvalidProposal)
    else if OpenCount(s, proposer) >= MAX_OPEN_PROPOSALS then Fail(TooManyOpenProposals)
    else if !Whitelisted(s.config, asset) then Fail(TokenNotWhitelisted)
    else if amount > Available(s, asset) then Fail(InsufficientTreasury)
    else Need(s.treasury.next < U32_MAX, Trapped)
  }

  function ProposeStep(s: State, proposer: Address, amount: int, asset: Address, destination: Address,
                       reason: string, isPrivate: bool): Result<State> {
    var id := s.treasury.next;
    :- ProposalCheck(s, proposer, amount, asset, destination, reason);
    var policy := s.config.policy;
    var p := TreasuryProposal(id, proposer, amount, destination, reason, s.now, Pending, 0, 0, 0,
                              policy.votingPeriod, policy.treasuryThreshold, isPrivate);
    var s0 := WithQuota(s, proposer).(treasury := s.treasury.(next := id + 1));
    var s1 := WithTreasuryProposal(s0, p);
    Success(if asset != s.config.token
            then s1.(treasury := s1.treasury.(assets := s1.treasury.assets[id := asset]))
            else s1)
  }

  /** How an inner payout can end: paid, refused with an error the caller may swallow, or a host
      trap that takes the whole step down. */
  datatype Settlement = Paid(state: State) | Refused(state: State, error: Error) | HostTrap

  /** `execute`: marks the proposal executed and pays its destination. */
  function Execute(s: State, p: TreasuryProposal): Settlement {
    var asset := TreasuryAsset(s, p.id);
    if TreasuryIn(s, asset) < p.amount then Refused(s, InsufficientTreasury)
    else
      var s1 := WithTreasuryProposal(s, p.(status := Executed));
      match Transfer(s1.balances, asset, s.config.self, p.destination, p.amount)
      case Failure(_) => HostTrap
      case Success(balances) =>
        Paid(s1.(balances := balances, history := Record(s1.history, TreasuryPaid(p.id, p.amount, p.destination))))
  }

  function Counted(p: TreasuryProposal, support: bool, weight: int): TreasuryProposal {
    if support then p.(forVotes := p.forVotes + weight, votesCast := p.votesCast + 1)
    else p.(againstVotes := p.againstVotes + weight, votesCast := p.votesCast + 1)
  }

  function VotingEnd(p: TreasuryProposal): nat {
    if p.isPrivate then p.createdAt + SatMul64(p.votingPeriod, 2) else p.createdAt + p.votingPeriod
  }

  /** The most that members who have not voted yet could still add. */
  function MaxRemaining(active: nat, votesCast: nat): int {
    SatSub(active, votesCast) * (1 + MAX_STAKE_BONUS)
  }

  /** Decides a proposal whose ballot has just been counted. */
  function Settle(s: State, p: TreasuryProposal): Result<State> {
    var required := RequiredVotes(s.roster.active, p.treasuryThreshold);
    if p.forVotes >= required then
      var approved := p.(status := ApprovedPendingDisbursement);
      match Execute(s, approved)
      case Paid(s1) => Success(WithTreasuryProposal(s1, approved.(status := Executed)))
      case Refused(s1, _) => Success(WithTreasuryProposal(s1, approved))
      case HostTrap => Failure(Trapped)
    else if p.forVotes + MaxRemaining(s.roster.active, p.votesCast) < required then
      Success(WithTreasuryProposal(s, p.(status := Rejected)))
    else
      Success(WithTreasuryProposal(s, p))
  }

  function BallotCast(s: State, id: Id, voter: Address, support: bool, weight: int): State {
    s.(treasury := s.treasury.(voted := s.treasury.voted + {(id, voter)}),
       history := Record(s.history, TreasuryVoteCast(id, voter, support, weight)))
  }

  /** `tally`: the vote-recording and execution path shared by open and revealed votes. */
  function Tally(s: State, p: TreasuryProposal, voter: Address, support: bool): Result<State> {
    if p.status != Pending then Failure(NotInVotingPhase) else
    :- Need(s.now <= VotingEnd(p), NotInVotingPhase);
    :- Need((p.id, voter) !in s.treasury.voted, AlreadyVoted);
    var weight := VotingWeight(s, voter);
    Settle(BallotCast(s, p.id, voter, support, weight), Counted(p, support, weight))
  }

  function VoteStep(s: State, voter: Address, id: Id, support: bool): Result<State> {
    if s.config.paused then Failure(Paused) else
    :- RequireActive(s.roster, voter);
    if id !in s.treasury.proposals then Failure(TreasuryProposalNotFound) else
    var p := s.treasury.proposals[id];
    :- Need(!p.isPrivate, NotAuthorized);
    Tally(s, p, voter, support)
  }

  function ExecuteApprovedStep(s: State, id: Id): Result<State> {
    if s.config.paused then Failure(Paused) else
    if id !in s.treasury.proposals then Failure(TreasuryProposalNotFound) else
    var p := s.treasury.proposals[id];
    :- Need(p.status == ApprovedPendingDisbursement, NotInVotingPhase);
    match Execute(s, p)
    case Paid(s1) => Success(WithTreasuryProposal(s1, p.(status := Executed)))
    case Refused(_, e) => Failure(e)
    case HostTrap => Failure(Trapped)
  }

  function CancelStep(s: State, proposer: Address, id: Id): Result<State> {
    if s.config.paused then Failure(Paused) else
    :- RequireActive(s.roster, proposer);
    if id !in s.treasury.proposals then Failure(TreasuryProposalNotFound) else
    var p := s.treasury.proposals[id];
    :- Need(p.proposer == proposer, NotAuthorized);
    :- Need(p.status == Pending, NotInVotingPhase);
    :- Need(s.now <= p.createdAt + s.config.policy.editingPeriod, NotInEditingPhase);
    Success(WithTreasuryProposal(s, p.(status := Cancelled)))
  }

  function ExpireStep(s: State, id: Id): Result<State> {
    if s.config.paused then Failure(Paused) else
    if id !in s.treasury.proposals then Failure(TreasuryProposalNotFound) else
    var p := s.treasury.proposals[id];
    :- Need(p.status == Pending, NotInVotingPhase);
    :- Need(s.now > p.createdAt + p.votingPeriod, NotInVotingPhase);
    Success(WithTreasuryProposal(s, p.(status := Expired)))
  }

  // ---- commit-reveal ----

  /** The host's hash function and address serialisation, left abstract. */
  datatype Crypto = Crypto(sha256: seq<byte> -> Bytes32, xdr: Address -> seq<byte>)

  /** `u32::to_be_bytes`. */
  function BigEndian(id: Id): (b: seq<byte>)
    ensures |b| == 4
  {
    [(id / 0x100_0000) as byte, (id / 0x1_0000 % 0x100) as byte, (id / 0x100 % 0x100) as byte, (id % 0x100) as byte]
  }

  function Preimage(xdr: Address -> seq<byte>, voter: Address, id: Id, support: bool, salt: Bytes32): seq<byte> {
    xdr(voter) + BigEndian(id) + [if support then 1 else 0] + salt
  }

  function CommitmentOf(c: Crypto, voter: Address, id: Id, support: bool, salt: Bytes32): Bytes32 {
    c.sha256(Preimage(c.xdr, voter, id, support, salt))
  }

  function CommitStep(s: State, voter: Address, id: Id, commitment: Bytes32): Result<State> {
    if s.config.paused then Failure(Paused) else
    :- RequireActive(s.roster, voter);
    if id !in s.treasury.proposals then Failure(TreasuryProposalNotFound) else
    var p := s.treasury.proposals[id];
    :- Need(p.isPrivate, NotAuthorized);
    :- Need(p.status == Pending, NotInVotingPhase);
    :- Need(s.now <= p.createdAt + p.votingPeriod, VotingEnded);
    :- Need((id, voter) !in s.treasury.voted, AlreadyVoted);
    :- Need((id, voter) !in s.treasury.commits, AlreadyVoted);
    Success(s.(treasury := s.treasury.(commits := s.treasury.commits[(id, voter) := commitment]),
               history := Record(s.history, VoteCommitted(id, voter, commitment, s.now))))
  }

  /** Consumes the commitment. */
  function CommitmentOpened(s: State, id: Id, voter: Address, support: bool, salt: Bytes32): State {
    s.(treasury := s.treasury.(commits := s.treasury.commits - {(id, voter)}),
       history := Record(s.history, VoteRevealed(id, voter, support, salt, s.now)))
  }

  function RevealStep(c: Crypto, s: State, voter: Address, id: Id, support: bool, salt: Bytes32): Result<State> {
    if s.config.paused then Failure(Paused) else
    :- RequireActive(s.roster, voter);
    if id !in s.treasury.proposals then Failure(TreasuryProposalNotFound) else
    var p := s.treasury.proposals[id];
    :- Need(p.isPrivate, NotAuthorized);
    var commitEnd := p.createdAt + p.votingPeriod;
    var revealEnd := commitEnd + p.votingPeriod;
    :- Need(s.now > commitEnd, NotYetRevealed);
    :- Need(s.now <= revealEnd, VotingEnded);
    :- Need((id, voter) !in s.treasury.voted, AlreadyRevealed);
    if (id, voter) !in s.treasury.commits then Failure(NoCommitment) else
    :- Need(s.treasury.commits[(id, voter)] == CommitmentOf(c, voter, id, support, salt), CommitmentMismatch);
    Tally(CommitmentOpened(s, id, voter, support, salt), p, voter, support)
  }

  // ---- the entrypoints ----

  method ReservedLoanCommitments(env: Env, asset: Address) returns (total: int)
    ensures total == ReservedCommitments(env.loans, env.config.token, asset, env.loans.next)
  {
    total := 0;
    for id := 0 to env.loans.next
      invariant total == ReservedCommitments(env.loans, env.config.token, asset, id)
    {
      if id in env.loans.proposals {
        var p := env.loans.proposals[id];
        if p.status == ApprovedPendingDisbursement && AssetOf(env.loans.assets, id, env.config.token) == asset {
          total := total + p.amount;
        }
      }
    }
  }

  /** The guards of a withdrawal proposal; a refused call leaves the quota cache alone. */
  method CheckProposal(env: Env, proposer: Address, amount: int, asset: Address, destination: Address,
                       reason: string) returns (g: Guard)
    modifies env`quota
    ensures g == ProposalCheck(old(env.View()), proposer, amount, asset, destination, reason)
    ensures env.View() == if g.Pass? then WithQuota(old(env.View()), proposer) else old(env.View())
  {
    var quota := env.quota;
    if env.config.paused { return Fail(Paused); }
    g := RequireActive(env.roster, proposer);
    if g.Fail? { return; }
    if amount <= 0 { return Fail(InvalidAmount); }
    if destination == env.config.self || |reason| == 0 || |reason| > 256 { return Fail(InvalidProposal); }
    var open := env.GetOpenProposals(proposer);
    var reserved := ReservedLoanCommitments(env, asset);
    g := if open >= MAX_OPEN_PROPOSALS then Fail(TooManyOpenProposals)
         else if !Whitelisted(env.config, asset) then Fail(TokenNotWhitelisted)
         else if amount > TreasuryIn(env.View(), asset) - reserved then Fail(InsufficientTreasury)
         else Need(env.treasury.next < U32_MAX, Trapped);
    if g.Fail? {
      env.quota := quota;
    }
  }

  method ProposeWithdrawalInAsset(env: Env, proposer: Address, amount: int, asset: Address, destination: Address,
                                  reason: string, isPrivate: bool) returns (r: Result<Id>)
    modifies env`treasury, env`quota
    ensures Follows(old(env.View()), env.View(),
                    ProposeStep(old(env.View()), proposer, amount, asset, destination, reason, isPrivate), r)
    ensures r.Success? ==> r.value == old(env.treasury.next)
  {
    var check := CheckProposal(env, proposer, amount, asset, destination, reason);
    if check.Fail? { return Failure(check.error); }
    var id := env.treasury.next;
    env.treasury := env.treasury.(next := id + 1);
    var policy := env.config.policy;
    env.SetTreasuryProposal(TreasuryProposal(id, proposer, amount, destination, reason, env.now, Pending, 0, 0, 0,
                                             policy.votingPeriod, policy.treasuryThreshold, isPrivate));
    if asset != env.config.token {
      env.treasury := env.treasury.(assets := env.treasury.assets[id := asset]);
    }
    return Success(id);
  }

  /** `execute`; `outcome` tells the caller what it may still write. */
  method ExecutePayout(env: Env, p: TreasuryProposal) returns (outcome: Guard)
    modifies env`treasury, env`quota, env`balances, env`history
    ensures match Execute(old(env.View()), p)
            case Paid(s) => outcome == Pass && env.View() == s
            case Refused(s, e) => outcome == Fail(e) && e != Trapped && env.View() == s
            case HostTrap => outcome == Fail(Trapped)
  {
    var asset := AssetOf(env.treasury.assets, p.id, env.config.token);
    if TreasuryIn(env.View(), asset) < p.amount {
      return Fail(InsufficientTreasury);
    }
    env.SetTreasuryProposal(p.(status := Executed));
    var paid := env.Pay(asset, env.config.self, p.destination, p.amount);
    if !paid {
      return Fail(Trapped);
    }
    env.Emit(TreasuryPaid(p.id, p.amount, p.destination));
    return Pass;
  }

  /** The decision at the end of `tally`; on failure the caller restores what it saved. */
  method SettleVote(env: Env, proposal: TreasuryProposal) returns (r: Result<()>)
    modifies env`treasury, env`quota, env`balances, env`history
    ensures match Settle(old(env.View()), proposal)
            case Success(s) => r.Success? && env.View() == s
            case Failure(e) => r == Failure(e)
  {
    var p := proposal;
    var required := RequiredVotes(env.roster.active, p.treasuryThreshold);
    if p.forVotes >= required {
      p := p.(status := ApprovedPendingDisbursement);
      var outcome := ExecutePayout(env, p);
      if outcome == Fail(Trapped) { return Failure(Trapped); }
      if outcome.Pass? {
        p := p.(status := Executed);
      }
    } else {
      var remaining := SatSub(env.roster.active, p.votesCast);
      if p.forVotes + remaining * (1 + MAX_STAKE_BONUS) < required {
        p := p.(status := Rejected);
      }
    }
    env.SetTreasuryProposal(p);
    return Success(());
  }

  /** `tally`; on failure the caller restores what it saved. */
  method TallyVote(env: Env, proposal: TreasuryProposal, voter: Address, support: bool) returns (r: Result<()>)
    requires StakesFit(env.staking.stakes)
    modifies env`treasury, env`quota, env`balances, env`history
    ensures match Tally(old(env.View()), proposal, voter, support)
            case Success(s) => r.Success? && env.View() == s
            case Failure(e) => r == Failure(e)
  {
    var p := proposal;
    if p.status != Pending { return Failure(NotInVotingPhase); }
    var votingEnd := if p.isPrivate then p.createdAt + SatMul64(p.votingPeriod, 2) else p.createdAt + p.votingPeriod;
    if env.now > votingEnd { return Failure(NotInVotingPhase); }
    if (p.id, voter) in env.treasury.voted { return Failure(AlreadyVoted); }
    var weight := ComputeVotingWeight(env, voter);
    if support {
      p := p.(forVotes := p.forVotes + weight);
    } else {
      p := p.(againstVotes := p.againstVotes + weight);
    }
    p := p.(votesCast := p.votesCast + 1);
    env.treasury := env.treasury.(voted := env.treasury.voted + {(p.id, voter)});
    assert p == Counted(proposal, support, weight);
    env.Emit(TreasuryVoteCast(p.id, voter, support, weight));
    r := SettleVote(env, p);
  }

  /** Undoes everything `tally` may have written. */
  method Rollback(env: Env, saved: State)
    modifies env`treasury, env`quota, env`balances, env`history
    ensures env.treasury == saved.treasury && env.quota == saved.quota
    ensures env.balances == saved.balances && env.history == saved.history
  {
    env.treasury, env.quota, env.balances, env.history := saved.treasury, saved.quota, saved.balances, saved.history;
  }

  method Vote(env: Env, voter: Address, id: Id, support: bool) returns (r: Result<()>)
    requires StakesFit(env.staking.stakes)
    modifies env`treasury, env`quota, env`balances, env`history
    ensures Follows(old(env.View()), env.View(), VoteStep(old(env.View()), voter, id, support), r)
  {
    var saved := env.View();
    if env.config.paused { return Failure(Paused); }
    :- RequireActive(env.roster, voter);
    if id !in env.treasury.proposals { return Failure(TreasuryProposalNotFound); }
    var p := env.treasury.proposals[id];
    if p.isPrivate { return Failure(NotAuthorized); }
    r := TallyVote(env, p, voter, support);
    if r.Failure? {
      Rollback(env, saved);
    }
  }

  method ExecuteApproved(env: Env, id: Id) returns (r: Result<()>)
    modifies env`treasury, env`quota, env`balances, env`history
    ensures Follows(old(env.View()), env.View(), ExecuteApprovedStep(old(env.View()), id), r)
  {
    var saved := env.View();
    if env.config.paused { return Failure(Paused); }
    if id !in env.treasury.proposals { return Failure(TreasuryProposalNotFound); }
    var p := env.treasury.proposals[id];
    if p.status != ApprovedPendingDisbursement { return Failure(NotInVotingPhase); }
    var outcome := ExecutePayout(env, p);
    if outcome.Fail? {
      Rollback(env, saved);
      return Failure(outcome.error);
    }
    env.SetTreasuryProposal(p.(status := Executed));
    return Success(());
  }

  method CancelTreasuryProposal(env: Env, proposer: Address, id: Id) returns (r: Result<()>)
    modifies env`treasury, env`quota
    ensures Follows(old(env.View()), env.View(), CancelStep(old(env.View()), proposer, id), r)
  {
    if env.config.paused { return Failure(Paused); }
    :- RequireActive(env.roster, proposer);
    if id !in env.treasury.proposals { return Failure(TreasuryProposalNotFound); }
    var p := env.treasury.proposals[id];
    if p.proposer != proposer { return Failure(NotAuthorized); }
    if p.status != Pending { return Failure(NotInVotingPhase); }
    if env.now > p.createdAt + env.config.policy.editingPeriod { return Failure(NotInEditingPhase); }
    env.SetTreasuryProposal(p.(status := Cancelled));
    return Success(());
  }

  method ExpireTreasuryProposal(env: Env, id: Id) returns (r: Result<()>)
    modifies env`treasury, env`quota
    ensures Follows(old(env.View()), env.View(), ExpireStep(old(env.View()), id), r)
  {
    if env.config.paused { return Failure(Paused); }
    if id !in env.treasury.proposals { return Failure(TreasuryProposalNotFound); }
    var p := env.treasury.proposals[id];
    if p.status != Pending { return Failure(NotInVotingPhase); }
    if env.now > p.createdAt + p.votingPeriod {
      env.SetTreasuryProposal(p.(status := Expired));
      return Success(());
    }
    return Failure(NotInVotingPhase);
  }

  /** `compute_commitment`: the preimage is appended piece by piece. */
  method ComputeCommitment(c: Crypto, voter: Address, id: Id, support: bool, salt: Bytes32) returns (digest: Bytes32)
    ensures digest == CommitmentOf(c, voter, id, support, salt)
  {
    var preimage := c.xdr(voter);
    var bytes := BigEndian(id);
    for i := 0 to |bytes|
      invariant preimage == c.xdr(voter) + bytes[..i]
    {
      preimage := preimage + [bytes[i]];
    }
    assert bytes[..|bytes|] == bytes;
    preimage := preimage + [if support then 1 else 0];
    preimage := preimage + salt;
    digest := c.sha256(preimage);
  }

  method CommitVote(env: Env, voter: Address, id: Id, commitment: Bytes32) returns (r: Result<()>)
    modifies env`treasury, env`history
    ensures Follows(old(env.View()), env.View(), CommitStep(old(env.View()), voter, id, commitment), r)
  {
    if env.config.paused { return Failure(Paused); }
    :- RequireActive(env.roster, voter);
    if id !in env.treasury.proposals { return Failure(TreasuryProposalNotFound); }
    var p := env.treasury.proposals[id];
    if !p.isPrivate { return Failure(NotAuthorized); }
    if p.status != Pending { return Failure(NotInVotingPhase); }
    if env.now > p.createdAt + p.votingPeriod { return Failure(VotingEnded); }
    if (id, voter) in env.treasury.voted { return Failure(AlreadyVoted); }
    if (id, voter) in env.treasury.commits { return Failure(AlreadyVoted); }
    env.treasury := env.treasury.(commits := env.treasury.commits[(id, voter) := commitment]);
    env.Emit(VoteCommitted(id, voter, commitment, env.now));
    return Success(());
  }

  method RevealVote(env: Env, c: Crypto, voter: Address, id: Id, support: bool, salt: Bytes32) returns (r: Result<()>)
    requires StakesFit(env.staking.stakes)
    modifies env`treasury, env`quota, env`balances, env`history
    ensures Follows(old(env.View()), env.View(), RevealStep(c, old(env.View()), voter, id, support, salt), r)
  {
    var saved := env.View();
    if env.config.paused { return Failure(Paused); }
    :- RequireActive(env.roster, voter);
    if id !in env.treasury.proposals { return Failure(TreasuryProposalNotFound); }
    var p := env.treasury.proposals[id];
    if !p.isPrivate { return Failure(NotAuthorized); }
    var commitEnd := p.createdAt + p.votingPeriod;
    var revealEnd := commitEnd + p.votingPeriod;
    if env.now <= commitEnd { return Failure(NotYetRevealed); }
    if env.now > revealEnd { return Failure(VotingEnded); }
    if (id, voter) in env.treasury.voted { return Failure(AlreadyRevealed); }
    if (id, voter) !in env.treasury.commits { return Failure(NoCommitment); }
    var expected := ComputeCommitment(c, voter, id, support, salt);
    if env.treasury.commits[(id, voter)] != expected { return Failure(CommitmentMismatch); }
    env.treasury := env.treasury.(commits := env.treasury.commits - {(id, voter)});
    env.Emit(VoteRevealed(id, voter, support, salt, env.now));
    r := TallyVote(env, p, voter, support);
    if r.Failure? {
      Rollback(env, saved);
    }
  }
}
