/** The loan lifecycle (`loans.rs`). */
module Lending {
  import opened Types
  import opened Arithmetic
  import opened History
  import opened Storage
  import opened Voting
  import opened Pricing
  import opened TreasuryOps

  // ---- requesting, editing, cancelling ----

  /** `is_eligible_for_loan`. */
  function Eligible(s: State, who: Address): Guard {
    if !IsActive(s.roster, who) then Fail(MemberNotActive)
    else
      var m := s.roster.members[who];
      if m.hasActiveLoan then Fail(HasActiveLoan)
      else if SatSub(s.now, m.joinTime) < s.config.policy.minMembershipDuration then Fail(NotEligibleForLoan)
      else if m.lastLoanTime != 0 && SatSub(s.now, m.lastLoanTime) < s.config.policy.cooldownPeriod
      then Fail(CooldownActive)
      else Pass
  }

  function MetadataCheck(cid: Option<string>): Guard {
    match cid
    case None => Pass
    case Some(text) =>
      if |text| == 0 then Fail(InvalidMetadataCid)
      else if |text| > 64 then Fail(DocumentTooLarge)
      else Pass
  }

  /** The exposure limit at request time; an overflowing product allows nothing. */
  function MaxLoan(treasury: int, policy: Policy): int {
    match Checked(treasury * policy.maxLoanToTreasuryRatio)
    case Some(v) => TruncDiv(v, BASIS_POINTS)
    case None => 0
  }

  /** What is checked before a loan proposal is opened, in the order it is checked. */
  function RequestCheck(s: State, borrower: Address, amount: int, asset: Address, cid: Option<string>): Guard {
    if s.config.paused then Fail(Paused)
    else if RequireActive(s.roster, borrower).Fail? then RequireActive(s.roster, borrower)
    else if !Whitelisted(s.config, asset) then Fail(TokenNotWhitelisted)
    else if amount <= 0 then Fail(InvalidAmount)
    else if MetadataCheck(cid).Fail? then MetadataCheck(cid)
    else if Eligible(s, borrower).Fail? then Eligible(s, borrower)
    else if OpenCount(s, borrower) >= MAX_OPEN_PROPOSALS then Fail(TooManyOpenProposals)
    else if amount > MaxLoan(TreasuryIn(s, asset), s.config.policy) then Fail(ExceedsTreasuryRatio)
    else Need(s.loans.next < U32_MAX, Trapped)
  }

  function NewProposal(s: State, borrower: Address, amount: nat, asset: Address, cid: Option<string>): LoanProposal {
    var policy := s.config.policy;
    var terms := QuoteTerms(policy, amount, TreasuryIn(s, asset));
    LoanProposal(s.loans.next, borrower, amount, terms.interestRate, terms.duration, terms.totalRepayment,
                 s.now, s.now + policy.editingPeriod, EditingPhase, Pending, 0, 0, 0, policy.votingPeriod, cid, None)
  }

  function RequestStep(s: State, borrower: Address, amount: int, asset: Address, cid: Option<string>): Result<State> {
    var id := s.loans.next;
    :- RequestCheck(s, borrower, amount, asset, cid);
    var p := NewProposal(s, borrower, amount, asset, cid);
    var s0 := WithQuota(s, borrower).(loans := s.loans.(next := id + 1));
    var s1 := WithLoanProposal(s0, p);
    Success(if asset != s.config.token then s1.(loans := s1.loans.(assets := s1.loans.assets[id := asset])) else s1)
  }

  predicate InEditing(p: LoanProposal, now: nat) {
    p.phase == EditingPhase && now < p.editingPeriodEnd
  }

  function EditStep(s: State, borrower: Address, id: Id, newAmount: int): Result<State> {
    if s.config.paused then Failure(Paused) else
    :- RequireActive(s.roster, borrower);
    if id !in s.loans.proposals then Failure(ProposalNotFound) else
    var p := s.loans.proposals[id];
    :- Need(p.borrower == borrower, NotBorrower);
    :- Need(InEditing(p, s.now), NotInEditingPhase);
    if newAmount <= 0 then Failure(InvalidAmount) else
    var terms := QuoteTerms(s.config.policy, newAmount, TreasuryIn(s, LoanAsset(s, id)));
    Success(WithLoanProposal(s, p.(amount := newAmount, interestRate := terms.interestRate, duration := terms.duration,
                                   totalRepayment := terms.totalRepayment, lastEditedAt := Some(s.now))))
  }

  function CancelLoanStep(s: State, borrower: Address, id: Id): Result<State> {
    if s.config.paused then Failure(Paused) else
    :- RequireActive(s.roster, borrower);
    if id !in s.loans.proposals then Failure(ProposalNotFound) else
    var p := s.loans.proposals[id];
    :- Need(p.borrower == borrower, NotBorrower);
    :- Need(InEditing(p, s.now), NotInEditingPhase);
    :- Need(p.status == Pending, NotInEditingPhase);
    Success(WithLoanProposal(s, p.(status := Cancelled, phase := ExpiredPhase)))
  }

  /** `refresh_phase`: advances a proposal by the clock. */
  function RefreshPhase(p: LoanProposal, now: nat): LoanProposal {
    var q := if p.phase == EditingPhase && now >= p.editingPeriodEnd then p.(phase := VotingPhase) else p;
    if q.phase == VotingPhase && now > q.editingPeriodEnd + q.votingPeriod && q.status == Pending
    then q.(phase := ExpiredPhase, status := Expired)
    else q
  }

  function ExpireLoanStep(s: State, id: Id): Result<State> {
    if s.config.paused then Failure(Paused) else
    if id !in s.loans.proposals then Failure(ProposalNotFound) else
    var p := RefreshPhase(s.loans.proposals[id], s.now);
    :- Need(p.phase == ExpiredPhase, ProposalNotExpired);
    Success(if s.loans.proposals[id].phase == ExpiredPhase then s else WithLoanProposal(s, p))
  }

  // ---- voting and disbursement ----

  function MakeLoan(p: LoanProposal, policy: Policy, treasury: int, now: nat): Loan {
    var terms := QuoteTerms(policy, p.amount, treasury);
    Loan(p.id, p.borrower, p.amount, terms.interestRate, terms.totalRepayment, now, now + terms.duration, Active, 0)
  }

  function Indebted(m: Member, now: nat): Member {
    m.(hasActiveLoan := true, lastLoanTime := now, totalLoans := m.totalLoans + 1, activeLoans := m.activeLoans + 1)
  }

  /** The exposure cap re-applied at disbursement. */
  function WithinCap(p: LoanProposal, policy: Policy, treasury: int): bool {
    match Checked(treasury * policy.maxLoanToTreasuryRatio)
    case Some(v) => p.amount <= TruncDiv(v, BASIS_POINTS)
    case None => false
  }

  /** `approve_and_disburse`, with the writes it has made when it refuses. */
  function ApproveAndDisburse(s: State, p: LoanProposal): Settlement {
    var asset := LoanAsset(s, p.id);
    var treasury := TreasuryIn(s, asset);
    if treasury < p.amount then Refused(s, InsufficientTreasury)
    else if !WithinCap(p, s.config.policy, treasury) then Refused(s, ExceedsTreasuryRatio)
    else
      var loan := MakeLoan(p, s.config.policy, treasury, s.now);
      var s1 := s.(loans := s.loans.(loans := s.loans.loans[p.id := loan]));
      if p.borrower !in s.roster.members then Refused(s1, NotMember)
      else
        var m := Indebted(s.roster.members[p.borrower], s.now);
        match Transfer(s.balances, asset, s.config.self, p.borrower, p.amount)
        case Failure(_) => HostTrap
        case Success(balances) =>
          Paid(s1.(roster := s.roster.(members := s.roster.members[p.borrower := m]),
                   balances := balances,
                   history := Record(s.history, LoanApproved(p.id, p.borrower, loan.principal, loan.totalRepayment))))
  }

  function ThresholdInForce(c: Config): nat {
    if c.policy.quorumBps > 0 then c.policy.quorumBps else c.threshold
  }

  function CountedLoan(p: LoanProposal, support: bool, weight: int): LoanProposal {
    if support then p.(forVotes := p.forVotes + weight, votesCast := p.votesCast + 1)
    else p.(againstVotes := p.againstVotes + weight, votesCast := p.votesCast + 1)
  }

  /** Decides a loan proposal whose ballot has just been counted. */
  function SettleLoan(s: State, p: LoanProposal): Result<State> {
    var required := RequiredVotes(s.roster.active, ThresholdInForce(s.config));
    if p.forVotes >= required && p.status == Pending then
      var approved := p.(status := ApprovedPendingDisbursement, phase := ExecutedPhase);
      match ApproveAndDisburse(WithLoanProposal(s, approved), approved)
      case Paid(s1) => Success(WithLoanProposal(s1, approved.(status := Approved)))
      case Refused(s1, _) => Success(WithLoanProposal(s1, approved))
      case HostTrap => Failure(Trapped)
    else if p.status == Pending && p.forVotes + MaxRemaining(s.roster.active, p.votesCast) < required then
      Success(WithLoanProposal(s, p.(status := Rejected, phase := ExpiredPhase)))
    else
      Success(WithLoanProposal(s, p))
  }

  function LoanVoteCheck(s: State, voter: Address, p: LoanProposal): Guard {
    if p.phase == EditingPhase then Fail(NotInVotingPhase)
    else if p.phase != VotingPhase then Fail(VotingEnded)
    else if s.now >= p.editingPeriodEnd + p.votingPeriod then Fail(VotingEnded)
    else if voter == p.borrower then Fail(BorrowerCannotVote)
    else Need((p.id, voter) !in s.loans.voted, AlreadyVoted)
  }

  function LoanBallotCast(s: State, id: Id, voter: Address, support: bool, weight: int): State {
    s.(loans := s.loans.(voted := s.loans.voted + {(id, voter)}),
       history := Record(s.history, LoanVoteCast(id, voter, support, weight)))
  }

  /** `vote_on_loan_proposal_internal`. */
  function CastLoanVote(s: State, voter: Address, id: Id, support: bool): Result<State> {
    if id !in s.loans.proposals then Failure(ProposalNotFound) else
    var p := RefreshPhase(s.loans.proposals[id], s.now);
    :- LoanVoteCheck(s, voter, p);
    var weight := VotingWeight(s, voter);
    SettleLoan(LoanBallotCast(s, p.id, voter, support, weight), CountedLoan(p, support, weight))
  }

  function LoanVoteStep(s: State, voter: Address, id: Id, support: bool): Result<State> {
    if s.config.paused then Failure(Paused) else
    :- RequireActive(s.roster, voter);
    CastLoanVote(s, voter, id, support)
  }

  /** Ballots cast one after the other; the first refused one reverts them all. */
  function CastLoanVotes(s: State, voter: Address, votes: seq<ProposalVote>): Result<State>
    decreases |votes|
  {
    if votes == [] then Success(s)
    else
      var s1 :- CastLoanVote(s, voter, votes[0].proposalId, votes[0].vote);
      CastLoanVotes(s1, voter, votes[1..])
  }

  function VoteBatchStep(s: State, voter: Address, votes: seq<ProposalVote>): Result<State> {
    if s.config.paused then Failure(Paused) else
    :- RequireActive(s.roster, voter);
    CastLoanVotes(s, voter, votes)
  }

  function DisburseStep(s: State, id: Id): Result<State> {
    if s.config.paused then Failure(Paused) else
    if id !in s.loans.proposals then Failure(ProposalNotFound) else
    var p := s.loans.proposals[id];
    :- Need(p.status == ApprovedPendingDisbursement, NotInVotingPhase);
    match ApproveAndDisburse(s, p)
    case Paid(s1) => Success(WithLoanProposal(s1, p.(status := Approved)))
    case Refused(_, e) => Failure(e)
    case HostTrap => Failure(Trapped)
  }

  // ---- repayment and default ----

  /** The accumulator after sharing `interest` among `active` members. */
  function Shared(y: Accrual, interest: int, active: nat): Accrual
    requires active > 0
  {
    var total := interest + y.remainder;
    var perMember := total / active;
    y.(remainder := total % active, accumulator := y.accumulator + if perMember > 0 then perMember else 0)
  }

  /** `distribute_interest`: the pull-based accumulator with its carried remainder. */
  function Distribute(s: State, interest: int): State {
    if interest <= 0 || s.roster.active == 0 then s
    else
      s.(accrual := Shared(s.accrual, interest, s.roster.active),
         history := Record(s.history, InterestPaid(interest)))
  }

  /** The overdue penalty on what is outstanding, rounded up; nothing on overflow. */
  function LatePenalty(outstanding: int, bps: nat): int {
    if outstanding > 0 && bps > 0 then
      match Checked(outstanding * bps)
      case None => 0
      case Some(v) =>
        match Checked(v + (BASIS_POINTS - 1))
        case None => 0
        case Some(w) => w / BASIS_POINTS
    else 0
  }

  /** The loan as it is owed at `now`: late debt grows by the penalty, kept as principal. */
  function Owed(loan: Loan, policy: Policy, now: nat): Loan {
    if now > loan.dueTime then
      var penalty := LatePenalty(loan.totalRepayment - loan.amountRepaid, policy.defaultPenaltyBps);
      loan.(totalRepayment := loan.totalRepayment + penalty, principal := loan.principal + penalty)
    else loan
  }

  function InterestTotal(loan: Loan): int { loan.totalRepayment - loan.principal }

  /** The loan after a payment; the last unit of debt makes it repaid. */
  function Credited(loan: Loan, amount: int): Loan {
    var repaid := loan.amountRepaid + amount;
    loan.(amountRepaid := repaid, status := if loan.totalRepayment == repaid then Repaid else loan.status)
  }

  /** The part of a payment that falls within the still-unpaid interest. */
  function InterestComponent(loan: Loan, amount: int): int {
    Min(loan.amountRepaid + amount, InterestTotal(loan)) - Min(loan.amountRepaid, InterestTotal(loan))
  }

  function Freed(m: Member): Member {
    m.(hasActiveLoan := false, repaidLoans := m.repaidLoans + 1, activeLoans := SatSub(m.activeLoans, 1))
  }

  /** The loan record and the borrower's counters after a payment. */
  function Booked(s: State, loan: Loan, amount: int): State {
    var paid := Credited(loan, amount);
    s.(loans := s.loans.(loans := s.loans.loans[loan.id := paid]),
       roster := if paid.totalRepayment == paid.amountRepaid && loan.borrower in s.roster.members
                 then s.roster.(members := s.roster.members[loan.borrower := Freed(s.roster.members[loan.borrower])])
                 else s.roster)
  }

  /** Only interest paid in the base token is handed out as yield. */
  function HandedOut(s: State, id: Id, interest: int): State {
    if LoanAsset(s, id) == s.config.token
    then Distribute(s.(history := Record(s.history, InterestHanded(id, interest))), interest)
    else s
  }

  /** The effects of an accepted payment on a loan as it is owed. */
  function ApplyPayment(s: State, loan: Loan, amount: int): Result<State> {
    var s1 := HandedOut(Booked(s, loan, amount), loan.id, InterestComponent(loan, amount));
    var balances :- Transfer(s1.balances, LoanAsset(s, loan.id), loan.borrower, s.config.self, amount);
    Success(s1.(balances := balances))
  }

  /** `repay_loan_internal`; `requested` is `None` for a full repayment. */
  function RepayStep(s: State, borrower: Address, id: Id, requested: Option<int>): Result<State> {
    if s.config.paused then Failure(Paused) else
    if id !in s.loans.loans then Failure(LoanNotFound) else
    :- Need(s.loans.loans[id].borrower == borrower, NotBorrower);
    :- Need(s.loans.loans[id].status == Active, LoanNotActive);
    var loan := Owed(s.loans.loans[id], s.config.policy, s.now);
    var outstanding := loan.totalRepayment - loan.amountRepaid;
    var amount := if requested.Some? then requested.value else outstanding;
    :- Need(0 < amount <= outstanding, InvalidAmount);
    ApplyPayment(s, loan, amount)
  }

  function RepayInAssetStep(s: State, borrower: Address, id: Id, asset: Address): Result<State> {
    if id !in s.loans.loans then Failure(LoanNotFound) else
    :- Need(LoanAsset(s, id) == asset, AssetMismatch);
    RepayStep(s, borrower, id, None)
  }

  /** The slash on default: rounded up, never more than the contribution. */
  function DefaultPenalty(contribution: int, bps: nat): int {
    if contribution > 0 && bps > 0 then
      match Checked(contribution * bps)
      case None => contribution
      case Some(v) =>
        match Checked(v + (BASIS_POINTS - 1))
        case None => contribution
        case Some(w) => Min(w / BASIS_POINTS, contribution)
    else 0
  }

  function Slashed(m: Member, penalty: int): Member {
    m.(contribution := m.contribution - penalty, hasActiveLoan := false, activeLoans := SatSub(m.activeLoans, 1))
  }

  function DefaultStep(s: State, id: Id): Result<State> {
    if s.config.paused then Failure(Paused) else
    if id !in s.loans.loans then Failure(LoanNotFound) else
    var loan := s.loans.loans[id];
    :- Need(loan.status == Active, LoanNotActive);
    :- Need(s.now >= loan.dueTime + s.config.policy.defaultGracePeriod, LoanNotOverdue);
    var s1 := s.(loans := s.loans.(loans := s.loans.loans[id := loan.(status := Defaulted)]));
    if loan.borrower !in s.roster.members then Success(s1)
    else
      var m := s.roster.members[loan.borrower];
      var penalty := DefaultPenalty(m.contribution, s.config.policy.defaultPenaltyBps);
      Success(s1.(roster := s.roster.(members := s.roster.members[loan.borrower := Slashed(m, penalty)],
                                      contributions := s.roster.contributions - penalty),
                  accrual := s.accrual.(snapshots := s.accrual.snapshots[loan.borrower := s.accrual.accumulator]),
                  history := Record(s.history, LoanDefaulted(loan.borrower, penalty))))
  }

  // ---- the entrypoints ----

  method CheckRequest(env: Env, borrower: Address, amount: int, asset: Address, cid: Option<string>) returns (g: Guard)
    modifies env`quota
    ensures g == RequestCheck(old(env.View()), borrower, amount, asset, cid)
    ensures env.View() == if g.Pass? then WithQuota(old(env.View()), borrower) else old(env.View())
  {
    var quota := env.quota;
    if env.config.paused { return Fail(Paused); }
    g := RequireActive(env.roster, borrower);
    if g.Fail? { return; }
    if !Whitelisted(env.config, asset) { return Fail(TokenNotWhitelisted); }
    if amount <= 0 { return Fail(InvalidAmount); }
    g := MetadataCheck(cid);
    if g.Fail? { return; }
    g := Eligible(env.View(), borrower);
    if g.Fail? { return; }
    var open := env.GetOpenProposals(borrower);
    g := if open >= MAX_OPEN_PROPOSALS then Fail(TooManyOpenProposals)
         else if amount > MaxLoan(TreasuryIn(env.View(), asset), env.config.policy) then Fail(ExceedsTreasuryRatio)
         else Need(env.loans.next < U32_MAX, Trapped);
    if g.Fail? {
      env.quota := quota;
    }
  }

  method RequestLoanInAsset(env: Env, borrower: Address, amount: int, asset: Address, cid: Option<string>)
    returns (r: Result<Id>)
    modifies env`loans, env`quota
    ensures Follows(old(env.View()), env.View(), RequestStep(old(env.View()), borrower, amount, asset, cid), r)
    ensures r.Success? ==> r.value == old(env.loans.next)
  {
    var check := CheckRequest(env, borrower, amount, asset, cid);
    if check.Fail? { return Failure(check.error); }
    var policy := env.config.policy;
    var terms := QuoteTerms(policy, amount, TreasuryIn(env.View(), asset));
    var id := env.loans.next;
    env.loans := env.loans.(next := id + 1);
    var p := LoanProposal(id, borrower, amount, terms.interestRate, terms.duration, terms.totalRepayment, env.now,
                          env.now + policy.editingPeriod, EditingPhase, Pending, 0, 0, 0, policy.votingPeriod,
                          cid, None);
    assert p == NewProposal(old(env.View()), borrower, amount, asset, cid);
    assert env.View() == WithQuota(old(env.View()), borrower).(loans := old(env.loans).(next := id + 1));
    env.SetLoanProposal(p);
    if asset != env.config.token {
      env.loans := env.loans.(assets := env.loans.assets[id := asset]);
    }
    return Success(id);
  }

  method EditLoanProposal(env: Env, borrower: Address, id: Id, newAmount: int) returns (r: Result<()>)
    modifies env`loans, env`quota
    ensures Follows(old(env.View()), env.View(), EditStep(old(env.View()), borrower, id, newAmount), r)
  {
    if env.config.paused { return Failure(Paused); }
    :- RequireActive(env.roster, borrower);
    if id !in env.loans.proposals { return Failure(ProposalNotFound); }
    var p := env.loans.proposals[id];
    if p.borrower != borrower { return Failure(NotBorrower); }
    if p.phase != EditingPhase || env.now >= p.editingPeriodEnd { return Failure(NotInEditingPhase); }
    if newAmount <= 0 { return Failure(InvalidAmount); }
    var asset := LoanAsset(env.View(), id);
    var terms := QuoteTerms(env.config.policy, newAmount, TreasuryIn(env.View(), asset));
    p := p.(amount := newAmount);
    p := p.(interestRate := terms.interestRate, duration := terms.duration);
    p := p.(totalRepayment := terms.totalRepayment);
    p := p.(lastEditedAt := Some(env.now));
    env.SetLoanProposal(p);
    return Success(());
  }

  method CancelLoanProposal(env: Env, borrower: Address, id: Id) returns (r: Result<()>)
    modifies env`loans, env`quota
    ensures Follows(old(env.View()), env.View(), CancelLoanStep(old(env.View()), borrower, id), r)
  {
    if env.config.paused { return Failure(Paused); }
    :- RequireActive(env.roster, borrower);
    if id !in env.loans.proposals { return Failure(ProposalNotFound); }
    var p := env.loans.proposals[id];
    if p.borrower != borrower { return Failure(NotBorrower); }
    if p.phase != EditingPhase || env.now >= p.editingPeriodEnd { return Failure(NotInEditingPhase); }
    if p.status != Pending { return Failure(NotInEditingPhase); }
    p := p.(status := Cancelled);
    p := p.(phase := ExpiredPhase);
    env.SetLoanProposal(p);
    return Success(());
  }

  method ExpireLoanProposal(env: Env, id: Id) returns (r: Result<()>)
    modifies env`loans, env`quota
    ensures Follows(old(env.View()), env.View(), ExpireLoanStep(old(env.View()), id), r)
  {
    if env.config.paused { return Failure(Paused); }
    if id !in env.loans.proposals { return Failure(ProposalNotFound); }
    var p := RefreshPhase(env.loans.proposals[id], env.now);
    if p.phase != ExpiredPhase { return Failure(ProposalNotExpired); }
    if env.loans.proposals[id].phase == ExpiredPhase { return Success(()); }
    env.SetLoanProposal(p);
    return Success(());
  }

  /** `approve_and_disburse`; `outcome` tells the caller what it may still write. */
  method DisburseLoan(env: Env, p: LoanProposal) returns (outcome: Guard)
    modifies env`loans, env`roster, env`balances, env`history
    ensures match ApproveAndDisburse(old(env.View()), p)
            case Paid(s) => outcome == Pass && env.View() == s
            case Refused(s, e) => outcome == Fail(e) && e != Trapped && env.View() == s
            case HostTrap => outcome == Fail(Trapped)
  {
    var asset := LoanAsset(env.View(), p.id);
    var treasury := TreasuryIn(env.View(), asset);
    if treasury < p.amount { return Fail(InsufficientTreasury); }
    var policy := env.config.policy;
    var product := Checked(treasury * policy.maxLoanToTreasuryRatio);
    if product.None? { return Fail(ExceedsTreasuryRatio); }
    if p.amount > TruncDiv(product.value, BASIS_POINTS) { return Fail(ExceedsTreasuryRatio); }
    var terms := QuoteTerms(policy, p.amount, treasury);
    var loan := Loan(p.id, p.borrower, p.amount, terms.interestRate, terms.totalRepayment, env.now,
                     env.now + terms.duration, Active, 0);
    assert loan == MakeLoan(p, policy, treasury, env.now);
    env.loans := env.loans.(loans := env.loans.loans[p.id := loan]);
    if p.borrower !in env.roster.members { return Fail(NotMember); }
    var m := env.roster.members[p.borrower];
    m := m.(hasActiveLoan := true);
    m := m.(lastLoanTime := env.now, totalLoans := m.totalLoans + 1, activeLoans := m.activeLoans + 1);
    assert m == Indebted(env.roster.members[p.borrower], env.now);
    env.roster := env.roster.(members := env.roster.members[p.borrower := m]);
    var paid := env.Pay(asset, env.config.self, p.borrower, p.amount);
    if !paid { return Fail(Trapped); }
    env.Emit(LoanApproved(p.id, p.borrower, loan.principal, loan.totalRepayment));
    return Pass;
  }

  /** The decision at the end of a loan vote; on failure the caller restores what it saved. */
  method SettleLoanVote(env: Env, proposal: LoanProposal) returns (r: Result<()>)
    modifies env`loans, env`roster, env`quota, env`balances, env`history
    ensures match SettleLoan(old(env.View()), proposal)
            case Success(s) => r.Success? && env.View() == s
            case Failure(e) => r == Failure(e)
  {
    var p := proposal;
    var policy := env.config.policy;
    var threshold := if policy.quorumBps > 0 then policy.quorumBps else env.config.threshold;
    var required := RequiredVotes(env.roster.active, threshold);
    if p.forVotes >= required && p.status == Pending {
      p := p.(status := ApprovedPendingDisbursement, phase := ExecutedPhase);
      env.SetLoanProposal(p);
      var outcome := DisburseLoan(env, p);
      if outcome == Fail(Trapped) { return Failure(Trapped); }
      if outcome.Pass? {
        p := p.(status := Approved);
      }
    } else if p.status == Pending {
      var remaining := SatSub(env.roster.active, p.votesCast);
      if p.forVotes + remaining * (1 + MAX_STAKE_BONUS) < required {
        p := p.(status := Rejected, phase := ExpiredPhase);
      }
    }
    env.SetLoanProposal(p);
    return Success(());
  }

  /** `vote_on_loan_proposal_internal`; on failure the caller restores what it saved. */
  method VoteInternal(env: Env, voter: Address, id: Id, support: bool) returns (r: Result<()>)
    requires StakesFit(env.staking.stakes)
    modifies env`loans, env`roster, env`quota, env`balances, env`history
    ensures match CastLoanVote(old(env.View()), voter, id, support)
            case Success(s) => r.Success? && env.View() == s
            case Failure(e) => r == Failure(e)
  {
    if id !in env.loans.proposals { return Failure(ProposalNotFound); }
    var refreshed := RefreshPhase(env.loans.proposals[id], env.now);
    var p := refreshed;
    if p.phase == EditingPhase { return Failure(NotInVotingPhase); }
    if p.phase != VotingPhase { return Failure(VotingEnded); }
    if env.now >= p.editingPeriodEnd + p.votingPeriod { return Failure(VotingEnded); }
    if voter == p.borrower { return Failure(BorrowerCannotVote); }
    if (p.id, voter) in env.loans.voted { return Failure(AlreadyVoted); }
    var weight := ComputeVotingWeight(env, voter);
    if support {
      p := p.(forVotes := p.forVotes + weight);
    } else {
      p := p.(againstVotes := p.againstVotes + weight);
    }
    p := p.(votesCast := p.votesCast + 1);
    env.loans := env.loans.(voted := env.loans.voted + {(p.id, voter)});
    assert p == CountedLoan(refreshed, support, weight);
    env.Emit(LoanVoteCast(p.id, voter, support, weight));
    r := SettleLoanVote(env, p);
  }

  /** Undoes everything a loan vote, disbursement or repayment may have written. */
  method Undo(env: Env, saved: State)
    modifies env`loans, env`roster, env`accrual, env`quota, env`balances, env`history
    ensures env.loans == saved.loans && env.roster == saved.roster && env.accrual == saved.accrual
    ensures env.quota == saved.quota && env.balances == saved.balances && env.history == saved.history
  {
    env.loans, env.roster, env.accrual := saved.loans, saved.roster, saved.accrual;
    env.quota, env.balances, env.history := saved.quota, saved.balances, saved.history;
  }

  method VoteOnLoanProposal(env: Env, voter: Address, id: Id, support: bool) returns (r: Result<()>)
    requires StakesFit(env.staking.stakes)
    modifies env`loans, env`roster, env`accrual, env`quota, env`balances, env`history
    ensures Follows(old(env.View()), env.View(), LoanVoteStep(old(env.View()), voter, id, support), r)
  {
    var saved := env.View();
    if env.config.paused { return Failure(Paused); }
    :- RequireActive(env.roster, voter);
    r := VoteInternal(env, voter, id, support);
    if r.Failure? {
      Undo(env, saved);
    }
  }

  method VoteBatch(env: Env, voter: Address, votes: seq<ProposalVote>) returns (r: Result<()>)
    requires StakesFit(env.staking.stakes)
    modifies env`loans, env`roster, env`accrual, env`quota, env`balances, env`history
    ensures Follows(old(env.View()), env.View(), VoteBatchStep(old(env.View()), voter, votes), r)
  {
    var saved := env.View();
    if env.config.paused { return Failure(Paused); }
    :- RequireActive(env.roster, voter);
    for i := 0 to |votes|
      invariant env.now == saved.now && env.config == saved.config && env.staking == saved.staking
      invariant env.accrual == saved.accrual && env.delegations == saved.delegations
      invariant env.treasury == saved.treasury
      invariant CastLoanVotes(saved, voter, votes) == CastLoanVotes(env.View(), voter, votes[i..])
    {
      assert votes[i..][1..] == votes[i + 1..];
      var one := VoteInternal(env, voter, votes[i].proposalId, votes[i].vote);
      if one.Failure? {
        Undo(env, saved);
        return one;
      }
    }
    return Success(());
  }

  method DisburseApprovedLoan(env: Env, id: Id) returns (r: Result<()>)
    modifies env`loans, env`roster, env`accrual, env`quota, env`balances, env`history
    ensures Follows(old(env.View()), env.View(), DisburseStep(old(env.View()), id), r)
  {
    var saved := env.View();
    if env.config.paused { return Failure(Paused); }
    if id !in env.loans.proposals { return Failure(ProposalNotFound); }
    var p := env.loans.proposals[id];
    if p.status != ApprovedPendingDisbursement { return Failure(NotInVotingPhase); }
    var outcome := DisburseLoan(env, p);
    if outcome.Fail? {
      Undo(env, saved);
      return Failure(outcome.error);
    }
    env.SetLoanProposal(p.(status := Approved));
    return Success(());
  }

  method DistributeInterest(env: Env, interest: int)
    modifies env`accrual, env`history
    ensures env.View() == Distribute(old(env.View()), interest)
  {
    var active := env.roster.active;
    if interest <= 0 || active == 0 { return; }
    var totalInterest := interest + env.accrual.remainder;
    var perMember := totalInterest / active;
    env.accrual := env.accrual.(remainder := totalInterest % active);
    if perMember > 0 {
      env.accrual := env.accrual.(accumulator := env.accrual.accumulator + perMember);
    }
    env.Emit(InterestPaid(interest));
  }

  /** Writes the paid-down loan and, on the last unit of debt, the borrower's counters. */
  method BookPayment(env: Env, owed: Loan, amount: int) returns (interest: int)
    modifies env`loans, env`roster
    ensures env.View() == Booked(old(env.View()), owed, amount)
    ensures interest == InterestComponent(owed, amount)
  {
    var loan := owed;
    var interestTotal := loan.totalRepayment - loan.principal;
    var interestBefore := Min(loan.amountRepaid, interestTotal);
    loan := loan.(amountRepaid := loan.amountRepaid + amount);
    var interestAfter := Min(loan.amountRepaid, interestTotal);
    if loan.totalRepayment - loan.amountRepaid == 0 {
      loan := loan.(status := Repaid);
      if loan.borrower in env.roster.members {
        var m := env.roster.members[loan.borrower];
        m := m.(hasActiveLoan := false, repaidLoans := m.repaidLoans + 1, activeLoans := SatSub(m.activeLoans, 1));
        assert m == Freed(env.roster.members[loan.borrower]);
        env.roster := env.roster.(members := env.roster.members[loan.borrower := m]);
      }
    }
    assert loan == Credited(owed, amount);
    env.loans := env.loans.(loans := env.loans.loans[loan.id := loan]);
    interest := interestAfter - interestBefore;
  }

  /** The interest-first split and its effects; reverts when the borrower cannot pay. */
  method TakePayment(env: Env, owed: Loan, amount: int) returns (r: Result<()>)
    modifies env`loans, env`roster, env`accrual, env`quota, env`balances, env`history
    ensures Follows(old(env.View()), env.View(), ApplyPayment(old(env.View()), owed, amount), r)
  {
    var saved := env.View();
    var asset := LoanAsset(saved, owed.id);
    var interest := BookPayment(env, owed, amount);
    if asset == env.config.token {
      env.Emit(InterestHanded(owed.id, interest));
      DistributeInterest(env, interest);
    }
    var paid := env.Pay(asset, owed.borrower, env.config.self, amount);
    if !paid {
      Undo(env, saved);
      return Failure(Trapped);
    }
    return Success(());
  }

  /** `repay_loan` (`None`) and `repay_loan_partial` (`Some(amount)`). */
  method RepayLoan(env: Env, borrower: Address, id: Id, requested: Option<int>) returns (r: Result<()>)
    modifies env`loans, env`roster, env`accrual, env`quota, env`balances, env`history
    ensures Follows(old(env.View()), env.View(), RepayStep(old(env.View()), borrower, id, requested), r)
  {
    if env.config.paused { return Failure(Paused); }
    if id !in env.loans.loans { return Failure(LoanNotFound); }
    var loan := env.loans.loans[id];
    if loan.borrower != borrower { return Failure(NotBorrower); }
    if loan.status != Active { return Failure(LoanNotActive); }
    var outstanding := loan.totalRepayment - loan.amountRepaid;
    if env.now > loan.dueTime {
      var penalty := LatePenalty(outstanding, env.config.policy.defaultPenaltyBps);
      outstanding := outstanding + penalty;
      loan := loan.(totalRepayment := loan.totalRepayment + penalty);
      loan := loan.(principal := loan.principal + penalty);
    }
    assert loan == Owed(env.loans.loans[id], env.config.policy, env.now);
    var amount := if requested.Some? then requested.value else outstanding;
    if amount <= 0 || amount > outstanding { return Failure(InvalidAmount); }
    assert 0 < amount <= loan.totalRepayment - loan.amountRepaid;
    assert RepayStep(old(env.View()), borrower, id, requested) == ApplyPayment(old(env.View()), loan, amount);
    r := TakePayment(env, loan, amount);
  }

  method RepayLoanInAsset(env: Env, borrower: Address, id: Id, asset: Address) returns (r: Result<()>)
    modifies env`loans, env`roster, env`accrual, env`quota, env`balances, env`history
    ensures Follows(old(env.View()), env.View(), RepayInAssetStep(old(env.View()), borrower, id, asset), r)
  {
    if id !in env.loans.loans { return Failure(LoanNotFound); }
    if LoanAsset(env.View(), id) != asset { return Failure(AssetMismatch); }
    r := RepayLoan(env, borrower, id, None);
  }

  method MarkLoanDefaulted(env: Env, id: Id) returns (r: Result<()>)
    modifies env`loans, env`roster, env`accrual, env`history
    ensures Follows(old(env.View()), env.View(), DefaultStep(old(env.View()), id), r)
  {
    if env.config.paused { return Failure(Paused); }
    if id !in env.loans.loans { return Failure(LoanNotFound); }
    var loan := env.loans.loans[id];
    if loan.status != Active { return Failure(LoanNotActive); }
    if env.now < loan.dueTime + env.config.policy.defaultGracePeriod { return Failure(LoanNotOverdue); }
    loan := loan.(status := Defaulted);
    env.loans := env.loans.(loans := env.loans.loans[id := loan]);
    if loan.borrower in env.roster.members {
      Slash(env, loan.borrower);
    }
    return Success(());
  }

  /** The penalty of a default: contribution, cached total, and pending yield. */
  method Slash(env: Env, borrower: Address)
    requires borrower in env.roster.members
    modifies env`roster, env`accrual, env`history
    ensures var m := old(env.roster).members[borrower];
            var penalty := DefaultPenalty(m.contribution, env.config.policy.defaultPenaltyBps);
            && env.roster == old(env.roster).(members := old(env.roster).members[borrower := Slashed(m, penalty)],
                                              contributions := old(env.roster).contributions - penalty)
            && env.history == Record(old(env.history), LoanDefaulted(borrower, penalty))
    ensures env.accrual
            == old(env.accrual).(snapshots := old(env.accrual.snapshots)[borrower := old(env.accrual.accumulator)])
  {
    var m := env.roster.members[borrower];
    var penalty := DefaultPenalty(m.contribution, env.config.policy.defaultPenaltyBps);
    m := m.(contribution := m.contribution - penalty);
    m := m.(hasActiveLoan := false, activeLoans := SatSub(m.activeLoans, 1));
    assert m == Slashed(env.roster.members[borrower], penalty);
    env.roster := env.roster.(members := env.roster.members[borrower := m]);
    if penalty > 0 {
      env.roster := env.roster.(contributions := env.roster.contributions - penalty);
    }
    env.accrual := env.accrual.(snapshots := env.accrual.snapshots[borrower := env.accrual.accumulator]);
    env.Emit(LoanDefaulted(borrower, penalty));
  }
}
