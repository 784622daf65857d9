/** The open-proposal quota: never more than three, and never under-cached. */
module Quota {
  import opened Types
  import opened Arithmetic
  import opened Storage
  import opened TreasuryOps
  import opened System
  import opened Frames
  import opened Lifecycle
  import opened Withdrawals
  import opened Voting
  import Lending
  import Pricing

  function CacheOf(quota: map<Address, nat>, who: Address): nat {
    if who in quota then quota[who] else 0
  }

  /** No member has more than three open proposals, and the cache never falls below the truth. */
  ghost predicate QuotaInv(s: State) {
    forall m: Address :: OpenCount(s, m) <= MAX_OPEN_PROPOSALS && OpenCount(s, m) <= CacheOf(s.quota, m)
  }

  // ---- counting open proposals across steps ----

  lemma {:induction false} OpenLoansShrink(b: LoanBook, c: LoanBook, who: Address, now: nat, later: nat, n: nat)
    requires BookEvolves(b, c) && now <= later && n <= b.next
    ensures OpenLoans(c, who, later, n) <= OpenLoans(b, who, now, n)
  {
    if n > 0 {
      OpenLoansShrink(b, c, who, now, later, n - 1);
      OpenOnlyIfOpenBefore(b, c, n - 1, who, now, later);
    }
  }

  /** Deadlines do not move, pending is never re-entered, and time does not run back. */
  lemma OpenOnlyIfOpenBefore(b: LoanBook, c: LoanBook, id: Id, who: Address, now: nat, later: nat)
    requires BookEvolves(b, c) && now <= later && id < b.next
    ensures LoanOpenFor(c, id, who, later) ==> LoanOpenFor(b, id, who, now)
  {
    if LoanOpenFor(c, id, who, later) {
      assert id in b.proposals;
      assert Evolves(b.proposals[id], c.proposals[id]);
    }
  }

  lemma {:induction false} OpenWithdrawalsShrink(b: TreasuryBook, c: TreasuryBook, who: Address, now: nat,
                                                 later: nat, n: nat)
    requires TreasuryEvolves(b, c) && now <= later && n <= b.next
    ensures OpenWithdrawals(c, who, later, n) <= OpenWithdrawals(b, who, now, n)
  {
    if n > 0 {
      OpenWithdrawalsShrink(b, c, who, now, later, n - 1);
      WithdrawalOpenBefore(b, c, n - 1, who, now, later);
    }
  }

  lemma WithdrawalOpenBefore(b: TreasuryBook, c: TreasuryBook, id: Id, who: Address, now: nat, later: nat)
    requires TreasuryEvolves(b, c) && now <= later && id < b.next
    ensures WithdrawalOpenFor(c, id, who, later) ==> WithdrawalOpenFor(b, id, who, now)
  {
    if WithdrawalOpenFor(c, id, who, later) {
      assert id in b.proposals;
      assert SameRequest(b.proposals[id], c.proposals[id]);
    }
  }

  lemma {:induction false} OpenLoansSame(b: LoanBook, c: LoanBook, who: Address, now: nat, n: nat)
    requires c.proposals == b.proposals && c.next == b.next && n <= b.next
    ensures OpenLoans(c, who, now, n) == OpenLoans(b, who, now, n)
  {
    if n > 0 {
      OpenLoansSame(b, c, who, now, n - 1);
    }
  }

  lemma {:induction false} OpenWithdrawalsSame(b: TreasuryBook, c: TreasuryBook, who: Address, now: nat, n: nat)
    requires c.proposals == b.proposals && c.next == b.next && n <= b.next
    ensures OpenWithdrawals(c, who, now, n) == OpenWithdrawals(b, who, now, n)
  {
    if n > 0 {
      OpenWithdrawalsSame(b, c, who, now, n - 1);
    }
  }

  ghost predicate SameProposals(s: State, t: State) {
    && t.loans.proposals == s.loans.proposals && t.loans.next == s.loans.next
    && t.treasury.proposals == s.treasury.proposals && t.treasury.next == s.treasury.next
    && t.now == s.now
  }

  lemma OpenCountSame(s: State, t: State, who: Address)
    requires SameProposals(s, t)
    ensures OpenCount(t, who) == OpenCount(s, who)
  {
    OpenLoansSame(s.loans, t.loans, who, s.now, s.loans.next);
    OpenWithdrawalsSame(s.treasury, t.treasury, who, s.now, s.treasury.next);
  }

  ghost predicate StateEvolves(s: State, t: State) {
    BookEvolves(s.loans, t.loans) && TreasuryEvolves(s.treasury, t.treasury) && s.now <= t.now
  }

  /** Without a new proposal the count can only fall; with one by `who` it rises by at most one. */
  lemma OpenCountShrinks(s: State, t: State, who: Address)
    requires StateEvolves(s, t) && t.loans.next == s.loans.next && t.treasury.next == s.treasury.next
    ensures OpenCount(t, who) <= OpenCount(s, who)
  {
    OpenLoansShrink(s.loans, t.loans, who, s.now, t.now, s.loans.next);
    OpenWithdrawalsShrink(s.treasury, t.treasury, who, s.now, t.now, s.treasury.next);
  }

  lemma OpenCountGrows(s: State, t: State, proposer: Address, who: Address)
    requires StateEvolves(s, t)
    requires t.loans.next == s.loans.next + 1 ==>
               s.loans.next in t.loans.proposals && t.loans.proposals[s.loans.next].borrower == proposer
    requires t.treasury.next == s.treasury.next + 1 ==>
               s.treasury.next in t.treasury.proposals && t.treasury.proposals[s.treasury.next].proposer == proposer
    requires t.loans.next + t.treasury.next == s.loans.next + s.treasury.next + 1
    ensures OpenCount(t, who) <= OpenCount(s, who) + if who == proposer then 1 else 0
  {
    OpenLoansShrink(s.loans, t.loans, who, s.now, t.now, s.loans.next);
    OpenWithdrawalsShrink(s.treasury, t.treasury, who, s.now, t.now, s.treasury.next);
  }

  /** The cache was refreshed for one member and left alone for the others. */
  ghost predicate Refreshed(s: State, t: State, who: Address) {
    && CacheOf(t.quota, who) >= OpenCount(t, who)
    && forall m :: m != who ==> CacheOf(t.quota, m) == CacheOf(s.quota, m)
  }

  lemma QuotaRefreshed(s: State, t: State, who: Address)
    requires QuotaInv(s) && StateEvolves(s, t) && Refreshed(s, t, who)
    requires t.loans.next == s.loans.next && t.treasury.next == s.treasury.next
    ensures QuotaInv(t)
  {
    forall m: Address
      ensures OpenCount(t, m) <= MAX_OPEN_PROPOSALS && OpenCount(t, m) <= CacheOf(t.quota, m)
    {
      OpenCountShrinks(s, t, m);
    }
  }

  lemma QuotaUntouched(s: State, t: State)
    requires QuotaInv(s) && StateEvolves(s, t) && t.quota == s.quota
    requires t.loans.next == s.loans.next && t.treasury.next == s.treasury.next
    ensures QuotaInv(t)
  {
    forall m: Address
      ensures OpenCount(t, m) <= MAX_OPEN_PROPOSALS && OpenCount(t, m) <= CacheOf(t.quota, m)
    {
      OpenCountShrinks(s, t, m);
    }
  }

  lemma QuotaOpened(s: State, t: State, who: Address)
    requires QuotaInv(s) && StateEvolves(s, t) && Refreshed(s, t, who)
    requires OpenCount(s, who) < MAX_OPEN_PROPOSALS
    requires t.loans.next == s.loans.next + 1 ==>
               s.loans.next in t.loans.proposals && t.loans.proposals[s.loans.next].borrower == who
    requires t.treasury.next == s.treasury.next + 1 ==>
               s.treasury.next in t.treasury.proposals && t.treasury.proposals[s.treasury.next].proposer == who
    requires t.loans.next + t.treasury.next == s.loans.next + s.treasury.next + 1
    ensures QuotaInv(t)
  {
    forall m: Address
      ensures OpenCount(t, m) <= MAX_OPEN_PROPOSALS && OpenCount(t, m) <= CacheOf(t.quota, m)
    {
      OpenCountGrows(s, t, who, m);
    }
  }

  // ---- which cache entries each step refreshes ----

  lemma PutLoanRefreshes(s: State, p: LoanProposal, t: State)
    requires t.quota == WithLoanProposal(s, p).quota && SameProposals(WithLoanProposal(s, p), t)
    ensures Refreshed(s, t, p.borrower)
  {
    OpenCountSame(s.(loans := s.loans.(proposals := s.loans.proposals[p.id := p])), t, p.borrower);
  }

  lemma PutWithdrawalRefreshes(s: State, p: TreasuryProposal, t: State)
    requires t.quota == WithTreasuryProposal(s, p).quota && SameProposals(WithTreasuryProposal(s, p), t)
    ensures Refreshed(s, t, p.proposer)
  {
    OpenCountSame(s.(treasury := s.treasury.(proposals := s.treasury.proposals[p.id := p])), t, p.proposer);
  }

  ghost predicate RefreshedOnly(s: State, t: State, who: Address) {
    && Refreshed(s, t, who)
    && t.loans.next == s.loans.next && t.treasury.next == s.treasury.next && t.now == s.now
  }

  lemma SettleLoanQuota(s: State, p: LoanProposal)
    requires Lending.SettleLoan(s, p).Success?
    ensures RefreshedOnly(s, Lending.SettleLoan(s, p).value, p.borrower)
  {
    var t := Lending.SettleLoan(s, p).value;
    var required := RequiredVotes(s.roster.active, Lending.ThresholdInForce(s.config));
    if p.forVotes >= required && p.status == Pending {
      var approved := ApprovedFrom(p);
      var s1 := WithLoanProposal(s, approved);
      DisbursalQuota(s1, approved);
      match Lending.ApproveAndDisburse(s1, approved)
      case Paid(s2) => PutLoanRefreshes(s2, approved.(status := Approved), t);
      case Refused(s2, _) => PutLoanRefreshes(s2, approved, t);
      case HostTrap =>
    } else {
      var q := if p.status == Pending && p.forVotes + MaxRemaining(s.roster.active, p.votesCast) < required
                 then RejectedFrom(p) else p;
      PutLoanRefreshes(s, q, t);
    }
  }

  lemma DisbursalQuota(s: State, p: LoanProposal)
    ensures match Lending.ApproveAndDisburse(s, p)
            case Paid(t) => SameProposals(s, t) && t.quota == s.quota
            case Refused(t, _) => SameProposals(s, t) && t.quota == s.quota
            case HostTrap => true
  {
  }

  lemma SettleQuota(s: State, p: TreasuryProposal)
    requires Settle(s, p).Success?
    ensures RefreshedOnly(s, Settle(s, p).value, p.proposer)
  {
    var t := Settle(s, p).value;
    var required := RequiredVotes(s.roster.active, p.treasuryThreshold);
    if p.forVotes >= required {
      var approved := p.(status := ApprovedPendingDisbursement);
      ExecuteQuota(s, approved);
      match Execute(s, approved)
      case Paid(s2) => PutWithdrawalRefreshes(s2, approved.(status := Executed), t);
      case Refused(s2, _) => PutWithdrawalRefreshes(s2, approved, t);
      case HostTrap =>
    } else {
      var q := if p.forVotes + MaxRemaining(s.roster.active, p.votesCast) < required then p.(status := Rejected) else p;
      PutWithdrawalRefreshes(s, q, t);
    }
  }

  lemma ExecuteQuota(s: State, p: TreasuryProposal)
    ensures match Execute(s, p)
            case Paid(t) =>
              && t.loans.next == s.loans.next && t.treasury.next == s.treasury.next && t.now == s.now
              && t.quota == WithTreasuryProposal(s, p.(status := Executed)).quota
            case Refused(t, _) => t == s
            case HostTrap => true
  {
  }

  lemma CastLoanVoteRefreshes(s: State, voter: Address, id: Id, support: bool)
    requires Lending.CastLoanVote(s, voter, id, support).Success?
    ensures RefreshedOnly(s, Lending.CastLoanVote(s, voter, id, support).value, s.loans.proposals[id].borrower)
  {
    var p := Lending.RefreshPhase(s.loans.proposals[id], s.now);
    var weight := VotingWeight(s, voter);
    SettleLoanQuota(Lending.LoanBallotCast(s, p.id, voter, support, weight), Lending.CountedLoan(p, support, weight));
  }

  lemma CastLoanVoteQuota(s: State, voter: Address, id: Id, support: bool)
    requires LifeInv(s) && QuotaInv(s) && Lending.CastLoanVote(s, voter, id, support).Success?
    ensures QuotaInv(Lending.CastLoanVote(s, voter, id, support).value)
  {
    var t := Lending.CastLoanVote(s, voter, id, support).value;
    CastLoanVoteRefreshes(s, voter, id, support);
    CastLoanVoteLife(s, voter, id, support);
    CastLoanVoteFrame(s, voter, id, support);
    TreasuryReflexive(s.treasury);
    QuotaRefreshed(s, t, s.loans.proposals[id].borrower);
  }

  lemma {:induction false} CastLoanVotesQuota(s: State, voter: Address, votes: seq<ProposalVote>)
    requires LifeInv(s) && QuotaInv(s) && Lending.CastLoanVotes(s, voter, votes).Success?
    ensures QuotaInv(Lending.CastLoanVotes(s, voter, votes).value)
    decreases |votes|
  {
    if votes != [] {
      CastLoanVoteLife(s, voter, votes[0].proposalId, votes[0].vote);
      CastLoanVoteQuota(s, voter, votes[0].proposalId, votes[0].vote);
      CastLoanVotesQuota(Lending.CastLoanVote(s, voter, votes[0].proposalId, votes[0].vote).value, voter, votes[1..]);
    }
  }

  lemma DisburseRefreshes(s: State, id: Id)
    requires Lending.DisburseStep(s, id).Success?
    ensures RefreshedOnly(s, Lending.DisburseStep(s, id).value, s.loans.proposals[id].borrower)
  {
    var p := s.loans.proposals[id];
    DisbursalQuota(s, p);
    match Lending.ApproveAndDisburse(s, p)
    case Paid(s1) => PutLoanRefreshes(s1, p.(status := Approved), Lending.DisburseStep(s, id).value);
    case _ =>
  }

  lemma EditRefreshes(s: State, who: Address, id: Id, amount: int)
    requires id in s.loans.proposals
    ensures var r := Lending.EditStep(s, who, id, amount);
            r.Success? ==> RefreshedOnly(s, r.value, s.loans.proposals[id].borrower)
    ensures var r := Lending.CancelLoanStep(s, who, id);
            r.Success? ==> RefreshedOnly(s, r.value, s.loans.proposals[id].borrower)
    ensures var r := Lending.ExpireLoanStep(s, id);
            r.Success? ==> RefreshedOnly(s, r.value, s.loans.proposals[id].borrower) || r.value == s
  {
    var p := s.loans.proposals[id];
    var edit, cancel := Lending.EditStep(s, who, id, amount), Lending.CancelLoanStep(s, who, id);
    var expire := Lending.ExpireLoanStep(s, id);
    if edit.Success? {
      var terms := Pricing.QuoteTerms(s.config.policy, amount, TreasuryIn(s, LoanAsset(s, id)));
      PutLoanRefreshes(s, p.(amount := amount, interestRate := terms.interestRate, duration := terms.duration,
                             totalRepayment := terms.totalRepayment, lastEditedAt := Some(s.now)), edit.value);
    }
    if cancel.Success? {
      PutLoanRefreshes(s, p.(status := Cancelled, phase := ExpiredPhase), cancel.value);
    }
    if expire.Success? && p.phase != ExpiredPhase {
      PutLoanRefreshes(s, Lending.RefreshPhase(p, s.now), expire.value);
    }
  }

  /** A new proposal takes the next id and names its author, who was below the limit. */
  ghost predicate OpensLoan(s: State, t: State, who: Address) {
    && OpenCount(s, who) < MAX_OPEN_PROPOSALS
    && t.loans.next == s.loans.next + 1 && t.treasury == s.treasury && t.now == s.now
    && s.loans.next in t.loans.proposals && t.loans.proposals[s.loans.next].borrower == who
  }

  lemma RequestOpens(s: State, who: Address, amount: int, asset: Address, cid: Option<string>)
    requires Lending.RequestStep(s, who, amount, asset, cid).Success?
    ensures OpensLoan(s, Lending.RequestStep(s, who, amount, asset, cid).value, who)
  {
  }

  lemma RequestRefreshes(s: State, who: Address, amount: int, asset: Address, cid: Option<string>)
    requires Lending.RequestStep(s, who, amount, asset, cid).Success?
    ensures Refreshed(s, Lending.RequestStep(s, who, amount, asset, cid).value, who)
  {
    var t := Lending.RequestStep(s, who, amount, asset, cid).value;
    var s0 := WithQuota(s, who).(loans := s.loans.(next := s.loans.next + 1));
    PutLoanRefreshes(s0, Lending.NewProposal(s, who, amount, asset, cid), t);
  }

  ghost predicate OpensWithdrawal(s: State, t: State, who: Address) {
    && OpenCount(s, who) < MAX_OPEN_PROPOSALS
    && t.treasury.next == s.treasury.next + 1 && t.loans == s.loans && t.now == s.now
    && s.treasury.next in t.treasury.proposals && t.treasury.proposals[s.treasury.next].proposer == who
  }

  lemma ProposeOpens(s: State, who: Address, amount: int, asset: Address, destination: Address, reason: string,
                     isPrivate: bool)
    requires ProposeStep(s, who, amount, asset, destination, reason, isPrivate).Success?
    ensures OpensWithdrawal(s, ProposeStep(s, who, amount, asset, destination, reason, isPrivate).value, who)
  {
  }

  lemma ProposeRefreshes(s: State, who: Address, amount: int, asset: Address, destination: Address, reason: string,
                         isPrivate: bool)
    requires ProposeStep(s, who, amount, asset, destination, reason, isPrivate).Success?
    ensures Refreshed(s, ProposeStep(s, who, amount, asset, destination, reason, isPrivate).value, who)
  {
    var t := ProposeStep(s, who, amount, asset, destination, reason, isPrivate).value;
    var s0 := WithQuota(s, who).(treasury := s.treasury.(next := s.treasury.next + 1));
    PutWithdrawalRefreshes(s0, NewWithdrawal(s, who, amount, destination, reason, isPrivate), t);
  }

  lemma TallyRefreshes(s: State, p: TreasuryProposal, voter: Address, support: bool)
    requires Tally(s, p, voter, support).Success?
    ensures RefreshedOnly(s, Tally(s, p, voter, support).value, p.proposer)
  {
    var weight := VotingWeight(s, voter);
    SettleQuota(BallotCast(s, p.id, voter, support, weight), Counted(p, support, weight));
  }

  lemma TreasuryRefreshes(c: Crypto, s: State, who: Address, id: Id, support: bool, salt: Bytes32)
    requires id in s.treasury.proposals
    ensures var r := VoteStep(s, who, id, support);
            r.Success? ==> RefreshedOnly(s, r.value, s.treasury.proposals[id].proposer)
    ensures var r := RevealStep(c, s, who, id, support, salt);
            r.Success? ==> RefreshedOnly(s, r.value, s.treasury.proposals[id].proposer)
  {
    var p := s.treasury.proposals[id];
    if VoteStep(s, who, id, support).Success? {
      TallyRefreshes(s, p, who, support);
    }
    if RevealStep(c, s, who, id, support, salt).Success? {
      TallyRefreshes(CommitmentOpened(s, id, who, support, salt), p, who, support);
    }
  }

  lemma ExecuteRefreshes(s: State, id: Id)
    requires ExecuteApprovedStep(s, id).Success?
    ensures RefreshedOnly(s, ExecuteApprovedStep(s, id).value, s.treasury.proposals[id].proposer)
  {
    var p := s.treasury.proposals[id];
    ExecuteQuota(s, p);
    match Execute(s, p)
    case Paid(s1) => PutWithdrawalRefreshes(s1, p.(status := Executed), ExecuteApprovedStep(s, id).value);
    case _ =>
  }

  lemma CloseRefreshes(s: State, who: Address, id: Id)
    requires id in s.treasury.proposals
    ensures var r := CancelStep(s, who, id); r.Success? ==> RefreshedOnly(s, r.value, s.treasury.proposals[id].proposer)
    ensures var r := ExpireStep(s, id); r.Success? ==> RefreshedOnly(s, r.value, s.treasury.proposals[id].proposer)
  {
    var p := s.treasury.proposals[id];
    var cancel, expire := CancelStep(s, who, id), ExpireStep(s, id);
    if cancel.Success? {
      PutWithdrawalRefreshes(s, p.(status := Cancelled), cancel.value);
    }
    if expire.Success? {
      PutWithdrawalRefreshes(s, p.(status := Expired), expire.value);
    }
  }

  // ---- every step ----

  lemma ProposalRefreshes(c: Crypto, s: State, a: Action)
    requires ProposalAction(a) && !a.RequestLoan? && AttemptProposal(s, a).Success?
    ensures a.id in s.loans.proposals
    ensures RefreshedOnly(s, AttemptProposal(s, a).value, s.loans.proposals[a.id].borrower)
            || AttemptProposal(s, a).value == s
  {
    match a
    case EditLoan(who, id, amount) => EditRefreshes(s, who, id, amount);
    case CancelLoan(who, id) => EditRefreshes(s, who, id, 0);
    case ExpireLoan(id) => EditRefreshes(s, 0, id, 0);
  }

  lemma StepProposalQuota(c: Crypto, s: State, a: Action)
    requires ProposalAction(a) && LifeInv(s) && QuotaInv(s) && AttemptProposal(s, a).Success?
    ensures QuotaInv(AttemptProposal(s, a).value)
  {
    var t := AttemptProposal(s, a).value;
    StepLife(c, s, a);
    ProposalFrame(c, s, a);
    TreasuryReflexive(s.treasury);
    if a.RequestLoan? {
      RequestOpens(s, a.who, a.amount, a.asset, a.cid);
      RequestRefreshes(s, a.who, a.amount, a.asset, a.cid);
      QuotaOpened(s, t, a.who);
    } else {
      ProposalRefreshes(c, s, a);
      if t != s {
        QuotaRefreshed(s, t, s.loans.proposals[a.id].borrower);
      }
    }
  }

  /** Repayments and defaults leave proposals and the cache alone. */
  ghost predicate QuotaKept(s: State, t: State) {
    SameProposals(s, t) && t.quota == s.quota
  }

  lemma RepayKeeps(s: State, who: Address, id: Id, requested: Option<int>)
    requires Lending.RepayStep(s, who, id, requested).Success?
    ensures QuotaKept(s, Lending.RepayStep(s, who, id, requested).value)
  {
    var owed := Lending.Owed(s.loans.loans[id], s.config.policy, s.now);
    var amount := if requested.Some? then requested.value else owed.totalRepayment - owed.amountRepaid;
    PaymentShape(s, owed, amount);
    PaymentKeeps(s, owed, amount);
  }

  lemma PaymentKeeps(s: State, owed: Loan, amount: int)
    requires Lending.ApplyPayment(s, owed, amount).Success?
    ensures var t := Lending.ApplyPayment(s, owed, amount).value;
            t.treasury == s.treasury && t.now == s.now && t.quota == s.quota
  {
  }

  lemma ServiceKeeps(c: Crypto, s: State, a: Action)
    requires ServiceAction(a)
    requires AttemptService(s, a).Success?
    ensures QuotaKept(s, AttemptService(s, a).value)
  {
    match a
    case Repay(who, id, requested) => RepayKeeps(s, who, id, requested);
    case RepayInAsset(who, id, _) => RepayKeeps(s, who, id, None);
    case MarkDefaulted(id) => DefaultShape(s, id);
  }

  lemma DisburseQuota(s: State, id: Id)
    requires LifeInv(s) && QuotaInv(s) && Lending.DisburseStep(s, id).Success?
    ensures QuotaInv(Lending.DisburseStep(s, id).value)
  {
    var t := Lending.DisburseStep(s, id).value;
    DisburseRefreshes(s, id);
    DisburseLife(s, id);
    DisburseFrame(s, id);
    TreasuryReflexive(s.treasury);
    QuotaRefreshed(s, t, s.loans.proposals[id].borrower);
  }

  lemma SameProposalsQuota(s: State, t: State)
    requires QuotaInv(s) && SameProposals(s, t) && t.quota == s.quota
    ensures QuotaInv(t)
  {
    forall m: Address
      ensures OpenCount(t, m) <= MAX_OPEN_PROPOSALS && OpenCount(t, m) <= CacheOf(t.quota, m)
    {
      OpenCountSame(s, t, m);
    }
  }

  lemma StepLendQuota(c: Crypto, s: State, a: Action)
    requires LendAction(a) && LifeInv(s) && QuotaInv(s) && AttemptLend(s, a).Success?
    ensures QuotaInv(AttemptLend(s, a).value)
  {
    match a
    case VoteLoan(who, id, support) => CastLoanVoteQuota(s, who, id, support);
    case VoteLoans(who, votes) => CastLoanVotesQuota(s, who, votes);
    case Disburse(id) => DisburseQuota(s, id);
  }

  lemma WithdrawalRefreshes(c: Crypto, s: State, a: Action)
    requires TreasuryAction(a) && !a.Propose? && !a.Commit? && AttemptTreasury(c, s, a).Success?
    ensures a.id in s.treasury.proposals
    ensures RefreshedOnly(s, AttemptTreasury(c, s, a).value, s.treasury.proposals[a.id].proposer)
  {
    match a
    case VoteTreasury(who, id, support) => TreasuryRefreshes(c, s, who, id, support, seq(32, _ => 0));
    case RevealVote(who, id, support, salt) => TreasuryRefreshes(c, s, who, id, support, salt);
    case ExecuteTreasury(id) => ExecuteRefreshes(s, id);
    case CancelTreasury(who, id) => CloseRefreshes(s, who, id);
    case ExpireTreasury(id) => CloseRefreshes(s, 0, id);
  }

  lemma CommitKeeps(s: State, voter: Address, id: Id, digest: Bytes32)
    ensures var r := CommitStep(s, voter, id, digest);
            r.Success? ==> SameProposals(s, r.value) && r.value.quota == s.quota
  {
  }

  lemma StepTreasuryQuota(c: Crypto, s: State, a: Action)
    requires TreasuryAction(a) && WithdrawalInv(c, s) && QuotaInv(s) && AttemptTreasury(c, s, a).Success?
    ensures QuotaInv(AttemptTreasury(c, s, a).value)
  {
    var t := AttemptTreasury(c, s, a).value;
    StepTreasuryInv(c, s, a);
    WithdrawalFrame(c, s, a);
    BookReflexive(s.loans);
    TreasuryQuota(c, s, a, t);
  }

  lemma TreasuryQuota(c: Crypto, s: State, a: Action, t: State)
    requires TreasuryAction(a) && AttemptTreasury(c, s, a) == Success(t)
    requires QuotaInv(s) && StateEvolves(s, t) && t.loans == s.loans && t.now == s.now
    ensures QuotaInv(t)
  {
    if a.Propose? {
      ProposeOpens(s, a.who, a.amount, a.asset, a.destination, a.reason, a.isPrivate);
      ProposeRefreshes(s, a.who, a.amount, a.asset, a.destination, a.reason, a.isPrivate);
      QuotaOpened(s, t, a.who);
    } else if a.Commit? {
      CommitKeeps(s, a.who, a.id, a.digest);
      SameProposalsQuota(s, t);
    } else {
      WithdrawalRefreshes(c, s, a);
      QuotaRefreshed(s, t, s.treasury.proposals[a.id].proposer);
    }
  }

  lemma QuietQuota(c: Crypto, s: State, a: Action)
    requires MemberAction(a) || EnvironmentAction(a)
    ensures var t := Step(c, s, a);
            t.loans == s.loans && t.treasury == s.treasury && t.quota == s.quota && s.now <= t.now
  {
    if MemberAction(a) {
      MemberFrame(c, s, a);
    } else {
      EnvironmentFrame(c, s, a);
      EnvironmentKeepsQuota(c, s, a);
    }
  }

  lemma EnvironmentKeepsQuota(c: Crypto, s: State, a: Action)
    requires EnvironmentAction(a)
    ensures Step(c, s, a).quota == s.quota
  {
  }

  lemma StepServiceQuota(c: Crypto, s: State, a: Action)
    requires ServiceAction(a) && QuotaInv(s) && AttemptService(s, a).Success?
    ensures QuotaInv(AttemptService(s, a).value)
  {
    ServiceKeeps(c, s, a);
    SameProposalsQuota(s, AttemptService(s, a).value);
  }

  lemma StepQuietQuota(c: Crypto, s: State, a: Action)
    requires (MemberAction(a) || EnvironmentAction(a)) && QuotaInv(s)
    ensures QuotaInv(Step(c, s, a))
  {
    QuietQuota(c, s, a);
    BookReflexive(s.loans);
    TreasuryReflexive(s.treasury);
    QuotaUntouched(s, Step(c, s, a));
  }

  lemma StepQuota(c: Crypto, s: State, a: Action)
    requires LifeInv(s) && WithdrawalInv(c, s) && QuotaInv(s)
    ensures QuotaInv(Step(c, s, a))
  {
    if Attempt(c, s, a).Success? {
      if ProposalAction(a) {
        StepProposalQuota(c, s, a);
      } else if LendAction(a) {
        StepLendQuota(c, s, a);
      } else if ServiceAction(a) {
        StepServiceQuota(c, s, a);
      } else if TreasuryAction(a) {
        StepTreasuryQuota(c, s, a);
      } else {
        StepQuietQuota(c, s, a);
      }
    }
  }

  lemma InitialQuota(s: State)
    requires Initial(s)
    ensures QuotaInv(s)
  {
  }
}
