/** The life of a loan proposal: consistent phase and status, one loan per approved proposal,
    and only forward movement. */
module Lifecycle {
  import opened Types
  import opened Arithmetic
  import opened History
  import opened Storage
  import opened TreasuryOps
  import opened System
  import opened Frames
  import opened Voting
  import Lending

  ghost predicate PhaseMatches(p: LoanProposal) {
    match p.phase
    case EditingPhase => p.status == Pending
    case VotingPhase => p.status == Pending
    case ExecutedPhase => p.status == ApprovedPendingDisbursement || p.status == Approved
    case ExpiredPhase => p.status == Rejected || p.status == Expired || p.status == Cancelled
  }

  ghost function DisbursedBy(p: LoanProposal): seq<Payment> {
    if p.status == Approved then [Payment(p.amount, p.borrower)] else []
  }

  /** A proposal, the loan it may have become, and the payments made for it. */
  ghost predicate ProposalOk(b: LoanBook, members: set<Address>, disbursals: map<Id, seq<Payment>>, id: Id)
    requires id in b.proposals
  {
    var p := b.proposals[id];
    && p.id == id && id < b.next
    && p.borrower in members
    && p.amount > 0
    && p.editingPeriodEnd > p.createdAt
    && PhaseMatches(p)
    && (id in b.loans <==> p.status == Approved)
    && (id in b.loans ==> b.loans[id].id == id && b.loans[id].borrower == p.borrower)
    && Listed(disbursals, id) == DisbursedBy(p)
  }

  ghost predicate LoanInv(b: LoanBook, members: set<Address>, disbursals: map<Id, seq<Payment>>) {
    && (forall id :: id in b.proposals ==> ProposalOk(b, members, disbursals, id))
    && (forall id :: id in b.loans ==> id in b.proposals)
    && (forall id :: id in b.assets ==> id < b.next)
    && (forall id :: id in disbursals ==> id in b.proposals)
  }

  ghost predicate LifeInv(s: State) {
    LoanInv(s.loans, s.roster.members.Keys, s.history.disbursals)
  }

  // ---- forward movement ----

  ghost predicate StatusForward(a: ProposalStatus, b: ProposalStatus) {
    a == b || a == Pending || (a == ApprovedPendingDisbursement && (b == Approved || b == Executed))
  }

  ghost function PhaseRank(p: ProposalPhase): nat {
    match p case EditingPhase => 0 case VotingPhase => 1 case ExecutedPhase => 2 case ExpiredPhase => 2
  }

  ghost predicate PhaseForward(a: ProposalPhase, b: ProposalPhase) {
    a == b || PhaseRank(a) < PhaseRank(b)
  }

  ghost predicate Evolves(p: LoanProposal, q: LoanProposal) {
    && q.id == p.id && q.borrower == p.borrower && q.createdAt == p.createdAt
    && q.editingPeriodEnd == p.editingPeriodEnd && q.votingPeriod == p.votingPeriod
    && q.metadataCid == p.metadataCid
    && StatusForward(p.status, q.status) && PhaseForward(p.phase, q.phase)
    && (p.phase != EditingPhase ==> q.amount == p.amount)
  }

  /** A loan keeps its interest however it is paid or penalised, and a closed loan never changes. */
  ghost predicate LoanEvolves(x: Loan, y: Loan) {
    && y.id == x.id && y.borrower == x.borrower && y.startTime == x.startTime && y.dueTime == x.dueTime
    && y.totalRepayment - y.principal == x.totalRepayment - x.principal
    && y.totalRepayment >= x.totalRepayment && y.amountRepaid >= x.amountRepaid
    && (x.status != Active ==> y == x)
  }

  ghost predicate BookEvolves(b: LoanBook, c: LoanBook) {
    && b.next <= c.next
    && b.voted <= c.voted
    && (forall id :: id in b.loans ==> id in c.loans && LoanEvolves(b.loans[id], c.loans[id]))
    && (forall id :: id in b.proposals ==> id in c.proposals && Evolves(b.proposals[id], c.proposals[id]))
    && (forall id :: id in c.proposals && id !in b.proposals ==> id >= b.next)
    && (forall id: Id, token: Address :: id < b.next ==> AssetOf(c.assets, id, token) == AssetOf(b.assets, id, token))
  }

  lemma EvolvesThrough(p: LoanProposal, q: LoanProposal, r: LoanProposal)
    requires Evolves(p, q) && Evolves(q, r)
    ensures Evolves(p, r)
  {
  }

  lemma EvolvesTransitive(b: LoanBook, c: LoanBook, d: LoanBook)
    requires BookEvolves(b, c) && BookEvolves(c, d)
    ensures BookEvolves(b, d)
  {
    forall id | id in b.proposals
      ensures id in d.proposals && Evolves(b.proposals[id], d.proposals[id])
    {
      EvolvesThrough(b.proposals[id], c.proposals[id], d.proposals[id]);
    }
    forall id | id in b.loans
      ensures id in d.loans && LoanEvolves(b.loans[id], d.loans[id])
    {
      assert LoanEvolves(b.loans[id], c.loans[id]) && LoanEvolves(c.loans[id], d.loans[id]);
    }
    forall id | id in d.proposals && id !in b.proposals
      ensures id >= b.next
    {
      assert id in c.proposals || id >= c.next;
    }
    forall id: Id, token: Address | id < b.next
      ensures AssetOf(d.assets, id, token) == AssetOf(b.assets, id, token)
    {
      assert AssetOf(c.assets, id, token) == AssetOf(b.assets, id, token);
    }
  }

  // ---- changes to the loan book ----

  /** Rewriting one proposal by an evolved version of itself. */
  lemma Rewritten(b: LoanBook, members: set<Address>, d: map<Id, seq<Payment>>, q: LoanProposal)
    requires LoanInv(b, members, d)
    requires q.id in b.proposals && Evolves(b.proposals[q.id], q)
    requires q.amount > 0 && PhaseMatches(q) && b.proposals[q.id].status != Approved && q.status != Approved
    ensures var c := b.(proposals := b.proposals[q.id := q]);
            LoanInv(c, members, d) && BookEvolves(b, c)
  {
    var c := b.(proposals := b.proposals[q.id := q]);
    forall id | id in c.proposals
      ensures ProposalOk(c, members, d, id)
    {
      assert ProposalOk(b, members, d, id);
    }
  }

  lemma Voted(b: LoanBook, members: set<Address>, d: map<Id, seq<Payment>>, id: Id, voter: Address)
    requires LoanInv(b, members, d)
    ensures var c := b.(voted := b.voted + {(id, voter)});
            LoanInv(c, members, d) && BookEvolves(b, c)
  {
    var c := b.(voted := b.voted + {(id, voter)});
    forall i | i in c.proposals
      ensures ProposalOk(c, members, d, i)
    {
      assert ProposalOk(b, members, d, i);
    }
  }

  /** A new proposal under the next id. */
  ghost predicate Requested(b: LoanBook, q: LoanProposal, c: LoanBook) {
    && q.id == b.next && q.amount > 0 && q.phase == EditingPhase && q.status == Pending
    && q.editingPeriodEnd > q.createdAt
    && c.next == b.next + 1 && c.proposals == b.proposals[q.id := q] && c.loans == b.loans && c.voted == b.voted
    && (forall id :: id != q.id ==>
          (id in c.assets <==> id in b.assets) && (id in b.assets ==> c.assets[id] == b.assets[id]))
  }

  lemma Opened(b: LoanBook, members: set<Address>, d: map<Id, seq<Payment>>, q: LoanProposal, c: LoanBook)
    requires LoanInv(b, members, d) && Requested(b, q, c) && q.borrower in members
    ensures LoanInv(c, members, d) && BookEvolves(b, c)
  {
    forall id | id in b.proposals
      ensures id < b.next && ProposalOk(c, members, d, id)
    {
      assert ProposalOk(b, members, d, id);
    }
    OpenedEvolves(b, q, c);
  }

  lemma OpenedEvolves(b: LoanBook, q: LoanProposal, c: LoanBook)
    requires Requested(b, q, c) && q.id !in b.proposals
    ensures BookEvolves(b, c)
  {
  }

  /** Approval with disbursement: the proposal's one loan and one payment appear together. */
  lemma Disbursed(b: LoanBook, members: set<Address>, d: map<Id, seq<Payment>>, p: LoanProposal, loan: Loan)
    requires LoanInv(b, members, d)
    requires p.id in b.proposals && Evolves(b.proposals[p.id], p) && b.proposals[p.id].status != Approved
    requires p.amount > 0 && p.status == Approved && p.phase == ExecutedPhase
    requires loan.id == p.id && loan.borrower == p.borrower
    ensures p.id !in b.loans
    ensures var c := b.(proposals := b.proposals[p.id := p], loans := b.loans[p.id := loan]);
            LoanInv(c, members, Append(d, p.id, Payment(p.amount, p.borrower))) && BookEvolves(b, c)
  {
    var c := b.(proposals := b.proposals[p.id := p], loans := b.loans[p.id := loan]);
    var e := Append(d, p.id, Payment(p.amount, p.borrower));
    assert ProposalOk(b, members, d, p.id);
    forall id | id in c.proposals
      ensures ProposalOk(c, members, e, id)
    {
      assert ProposalOk(b, members, d, id);
    }
    DisbursedEvolves(b, p, loan);
  }

  lemma DisbursedEvolves(b: LoanBook, p: LoanProposal, loan: Loan)
    requires p.id in b.proposals && Evolves(b.proposals[p.id], p) && p.id !in b.loans
    ensures BookEvolves(b, b.(proposals := b.proposals[p.id := p], loans := b.loans[p.id := loan]))
  {
  }

  /** Loan records change only once the proposal is approved, and only forward. */
  lemma Serviced(b: LoanBook, members: set<Address>, d: map<Id, seq<Payment>>, loan: Loan)
    requires LoanInv(b, members, d)
    requires loan.id in b.loans && LoanEvolves(b.loans[loan.id], loan)
    ensures var c := b.(loans := b.loans[loan.id := loan]);
            LoanInv(c, members, d) && BookEvolves(b, c)
  {
    var c := b.(loans := b.loans[loan.id := loan]);
    forall id | id in c.proposals
      ensures ProposalOk(c, members, d, id)
    {
      assert ProposalOk(b, members, d, id);
    }
  }

  lemma MoreMembers(b: LoanBook, members: set<Address>, more: set<Address>, d: map<Id, seq<Payment>>)
    requires LoanInv(b, members, d) && members <= more
    ensures LoanInv(b, more, d)
  {
    forall id | id in b.proposals
      ensures ProposalOk(b, more, d, id)
    {
      assert ProposalOk(b, members, d, id);
    }
  }

  // ---- the clock ----

  lemma RefreshEvolves(p: LoanProposal, now: nat)
    requires PhaseMatches(p)
    ensures var q := Lending.RefreshPhase(p, now);
            && Evolves(p, q) && PhaseMatches(q) && q.amount == p.amount
            && (q.status == p.status || (p.status == Pending && q.status == Expired))
            && q == p.(phase := q.phase, status := q.status)
  {
  }

  // ---- shapes of the disbursement and of the decision ----

  /** A refused disbursement has written nothing, as long as the borrower has a record. */
  lemma RefusedWritesNothing(s: State, p: LoanProposal)
    requires p.borrower in s.roster.members
    ensures match Lending.ApproveAndDisburse(s, p)
            case Refused(s1, _) => s1 == s
            case _ => true
  {
  }

  ghost function LoanFor(s: State, p: LoanProposal): Loan {
    Lending.MakeLoan(p, s.config.policy, TreasuryIn(s, LoanAsset(s, p.id)), s.now)
  }

  /** What a disbursement does: one loan, one counted borrower, one payment. */
  ghost predicate Lent(s: State, p: LoanProposal, t: State) {
    var loan := LoanFor(s, p);
    && p.borrower in s.roster.members
    && InI128(p.amount)
    && t.loans == s.loans.(loans := s.loans.loans[p.id := loan])
    && t.roster == s.roster.(members := s.roster.members[p.borrower :=
                               Lending.Indebted(s.roster.members[p.borrower], s.now)])
    && t.history == Record(s.history, LoanApproved(p.id, p.borrower, loan.principal, loan.totalRepayment))
  }

  lemma DisbursalShape(s: State, p: LoanProposal)
    ensures match Lending.ApproveAndDisburse(s, p)
            case Paid(t) => Lent(s, p, t)
            case _ => true
  {
  }

  function ApprovedFrom(p: LoanProposal): LoanProposal {
    p.(status := ApprovedPendingDisbursement, phase := ExecutedPhase)
  }

  function RejectedFrom(p: LoanProposal): LoanProposal {
    p.(status := Rejected, phase := ExpiredPhase)
  }

  /** The decision lent the money at once. */
  ghost predicate SettledByLending(s: State, p: LoanProposal, t: State) {
    var final := p.(status := Approved, phase := ExecutedPhase);
    var lent := t.(loans := t.loans.(proposals := s.loans.proposals));
    && Lent(s, p, lent)
    && t.loans.proposals == s.loans.proposals[p.id := final]
  }

  /** The decision only rewrote the proposal. */
  ghost predicate SettledWithout(s: State, p: LoanProposal, t: State) {
    && t.roster == s.roster && t.history == s.history
    && (t.loans == s.loans.(proposals := s.loans.proposals[p.id := ApprovedFrom(p)])
        || t.loans == s.loans.(proposals := s.loans.proposals[p.id := RejectedFrom(p)])
        || t.loans == s.loans.(proposals := s.loans.proposals[p.id := p]))
  }

  lemma SettleLoanShape(s: State, p: LoanProposal)
    requires p.status == Pending && p.borrower in s.roster.members
    requires Lending.SettleLoan(s, p).Success?
    ensures var t := Lending.SettleLoan(s, p).value;
            SettledByLending(s, p, t) || SettledWithout(s, p, t)
  {
    var required := RequiredVotes(s.roster.active, Lending.ThresholdInForce(s.config));
    if p.forVotes >= required {
      var approved := ApprovedFrom(p);
      var s1 := WithLoanProposal(s, approved);
      RefusedWritesNothing(s1, approved);
      DisbursalShape(s1, approved);
      match Lending.ApproveAndDisburse(s1, approved)
      case Paid(s2) => LentThenMarked(s, p, s2);
      case Refused(_, _) => OverwrittenTwice(s.loans.proposals, p.id, approved, approved);
      case HostTrap =>
    }
  }

  lemma LentThenMarked(s: State, p: LoanProposal, s2: State)
    requires Lent(WithLoanProposal(s, ApprovedFrom(p)), ApprovedFrom(p), s2)
    ensures SettledByLending(s, p, WithLoanProposal(s2, ApprovedFrom(p).(status := Approved)))
  {
    OverwrittenTwice(s.loans.proposals, p.id, ApprovedFrom(p), ApprovedFrom(p).(status := Approved));
  }

  lemma OverwrittenTwice(m: map<Id, LoanProposal>, id: Id, p: LoanProposal, q: LoanProposal)
    ensures m[id := p][id := q] == m[id := q]
  {
  }

  lemma SettleLoanLife(s: State, p: LoanProposal)
    requires LifeInv(s)
    requires p.id in s.loans.proposals && Evolves(s.loans.proposals[p.id], p)
    requires p.phase == VotingPhase && p.status == Pending && p.amount > 0
    requires Lending.SettleLoan(s, p).Success?
    ensures var t := Lending.SettleLoan(s, p).value;
            LifeInv(t) && BookEvolves(s.loans, t.loans)
  {
    var t := Lending.SettleLoan(s, p).value;
    assert ProposalOk(s.loans, s.roster.members.Keys, s.history.disbursals, p.id);
    SettleLoanShape(s, p);
    SettledLife(s, p, t);
  }

  lemma SettledLife(s: State, p: LoanProposal, t: State)
    requires LifeInv(s)
    requires p.id in s.loans.proposals && Evolves(s.loans.proposals[p.id], p)
    requires s.loans.proposals[p.id].status != Approved
    requires p.phase == VotingPhase && p.status == Pending && p.amount > 0
    requires SettledByLending(s, p, t) || SettledWithout(s, p, t)
    ensures LifeInv(t) && BookEvolves(s.loans, t.loans)
  {
    if SettledByLending(s, p, t) {
      LentLife(s, p, t);
    } else {
      WithoutLife(s.loans, s.roster.members.Keys, s.history.disbursals, p);
    }
  }

  lemma LentLife(s: State, p: LoanProposal, t: State)
    requires LifeInv(s) && p.amount > 0
    requires p.id in s.loans.proposals && s.loans.proposals[p.id].status != Approved
    requires Evolves(s.loans.proposals[p.id], p.(status := Approved, phase := ExecutedPhase))
    requires SettledByLending(s, p, t)
    ensures LifeInv(t) && BookEvolves(s.loans, t.loans)
  {
    Disbursed(s.loans, s.roster.members.Keys, s.history.disbursals, p.(status := Approved, phase := ExecutedPhase),
              LoanFor(s, p));
    assert t.roster.members.Keys == s.roster.members.Keys;
  }

  lemma WithoutLife(b: LoanBook, members: set<Address>, d: map<Id, seq<Payment>>, p: LoanProposal)
    requires LoanInv(b, members, d)
    requires p.id in b.proposals && Evolves(b.proposals[p.id], p)
    requires p.phase == VotingPhase && p.status == Pending && p.amount > 0
    ensures var c := b.(proposals := b.proposals[p.id := ApprovedFrom(p)]); LoanInv(c, members, d) && BookEvolves(b, c)
    ensures var c := b.(proposals := b.proposals[p.id := RejectedFrom(p)]); LoanInv(c, members, d) && BookEvolves(b, c)
    ensures var c := b.(proposals := b.proposals[p.id := p]); LoanInv(c, members, d) && BookEvolves(b, c)
  {
    assert ProposalOk(b, members, d, p.id);
    Rewritten(b, members, d, ApprovedFrom(p));
    Rewritten(b, members, d, RejectedFrom(p));
    Rewritten(b, members, d, p);
  }

  // ---- every step ----

  ghost predicate LifeStep(s: State, t: State) {
    LifeInv(t) && BookEvolves(s.loans, t.loans)
  }

  lemma RequestLife(s: State, who: Address, amount: int, asset: Address, cid: Option<string>)
    requires LifeInv(s) && Lending.RequestStep(s, who, amount, asset, cid).Success?
    ensures LifeStep(s, Lending.RequestStep(s, who, amount, asset, cid).value)
  {
    Opened(s.loans, s.roster.members.Keys, s.history.disbursals, Lending.NewProposal(s, who, amount, asset, cid),
           Lending.RequestStep(s, who, amount, asset, cid).value.loans);
  }

  lemma EditLife(s: State, who: Address, id: Id, amount: int)
    requires LifeInv(s) && Lending.EditStep(s, who, id, amount).Success?
    ensures LifeStep(s, Lending.EditStep(s, who, id, amount).value)
  {
    assert ProposalOk(s.loans, s.roster.members.Keys, s.history.disbursals, id);
    Rewritten(s.loans, s.roster.members.Keys, s.history.disbursals,
              Lending.EditStep(s, who, id, amount).value.loans.proposals[id]);
  }

  lemma CancelLife(s: State, who: Address, id: Id)
    requires LifeInv(s) && Lending.CancelLoanStep(s, who, id).Success?
    ensures LifeStep(s, Lending.CancelLoanStep(s, who, id).value)
  {
    assert ProposalOk(s.loans, s.roster.members.Keys, s.history.disbursals, id);
    Rewritten(s.loans, s.roster.members.Keys, s.history.disbursals,
              s.loans.proposals[id].(status := Cancelled, phase := ExpiredPhase));
  }

  lemma ExpireLife(s: State, id: Id)
    requires LifeInv(s) && Lending.ExpireLoanStep(s, id).Success?
    ensures LifeStep(s, Lending.ExpireLoanStep(s, id).value)
  {
    assert ProposalOk(s.loans, s.roster.members.Keys, s.history.disbursals, id);
    RefreshEvolves(s.loans.proposals[id], s.now);
    if s.loans.proposals[id].phase != ExpiredPhase {
      Rewritten(s.loans, s.roster.members.Keys, s.history.disbursals,
                Lending.RefreshPhase(s.loans.proposals[id], s.now));
    }
  }

  lemma CastLoanVoteLife(s: State, voter: Address, id: Id, support: bool)
    requires LifeInv(s) && Lending.CastLoanVote(s, voter, id, support).Success?
    ensures LifeStep(s, Lending.CastLoanVote(s, voter, id, support).value)
  {
    assert ProposalOk(s.loans, s.roster.members.Keys, s.history.disbursals, id);
    var p := Lending.RefreshPhase(s.loans.proposals[id], s.now);
    RefreshEvolves(s.loans.proposals[id], s.now);
    var weight := VotingWeight(s, voter);
    CountedLife(s, Lending.LoanBallotCast(s, id, voter, support, weight), id, voter,
                Lending.CountedLoan(p, support, weight));
  }

  lemma CountedLife(s: State, s1: State, id: Id, voter: Address, counted: LoanProposal)
    requires LifeInv(s) && counted.id == id && id in s.loans.proposals && Evolves(s.loans.proposals[id], counted)
    requires counted.phase == VotingPhase && counted.status == Pending && counted.amount > 0
    requires s1.loans == s.loans.(voted := s.loans.voted + {(id, voter)}) && s1.roster == s.roster
    requires s1.history.disbursals == s.history.disbursals
    requires Lending.SettleLoan(s1, counted).Success?
    ensures LifeStep(s, Lending.SettleLoan(s1, counted).value)
  {
    Voted(s.loans, s.roster.members.Keys, s.history.disbursals, id, voter);
    SettleLoanLife(s1, counted);
    EvolvesTransitive(s.loans, s1.loans, Lending.SettleLoan(s1, counted).value.loans);
  }

  lemma BookReflexive(b: LoanBook)
    ensures BookEvolves(b, b)
  {
  }

  lemma {:induction false} CastLoanVotesLife(s: State, voter: Address, votes: seq<ProposalVote>)
    requires LifeInv(s) && Lending.CastLoanVotes(s, voter, votes).Success?
    ensures LifeStep(s, Lending.CastLoanVotes(s, voter, votes).value)
    decreases |votes|
  {
    if votes == [] {
      BookReflexive(s.loans);
    } else {
      var s1 := Lending.CastLoanVote(s, voter, votes[0].proposalId, votes[0].vote).value;
      CastLoanVoteLife(s, voter, votes[0].proposalId, votes[0].vote);
      CastLoanVotesLife(s1, voter, votes[1..]);
      EvolvesTransitive(s.loans, s1.loans, Lending.CastLoanVotes(s1, voter, votes[1..]).value.loans);
    }
  }

  lemma DisburseLife(s: State, id: Id)
    requires LifeInv(s) && Lending.DisburseStep(s, id).Success?
    ensures LifeStep(s, Lending.DisburseStep(s, id).value)
    ensures SettledByLending(s, s.loans.proposals[id], Lending.DisburseStep(s, id).value)
  {
    assert ProposalOk(s.loans, s.roster.members.Keys, s.history.disbursals, id);
    var p := s.loans.proposals[id];
    DisbursalShape(s, p);
    var t := Lending.DisburseStep(s, id).value;
    assert p.(status := Approved) == p.(status := Approved, phase := ExecutedPhase);
    LentLife(s, p, t);
  }

  lemma PenaltyNonNegative(outstanding: int, bps: nat)
    ensures Lending.LatePenalty(outstanding, bps) >= 0
  {
    if outstanding > 0 && bps > 0 {
      MulNonNegative(outstanding, bps);
    }
  }

  lemma RepayIsPayment(s: State, borrower: Address, id: Id, requested: Option<int>)
    requires Lending.RepayStep(s, borrower, id, requested).Success?
    ensures id in s.loans.loans && s.loans.loans[id].status == Active
    ensures
      var owed := Lending.Owed(s.loans.loans[id], s.config.policy, s.now);
      var amount := if requested.Some? then requested.value else owed.totalRepayment - owed.amountRepaid;
      && 0 < amount <= owed.totalRepayment - owed.amountRepaid
      && Lending.RepayStep(s, borrower, id, requested) == Lending.ApplyPayment(s, owed, amount)
  {
  }

  /** A payment changes one loan record, keeping its identity. */
  lemma RepayLife(s: State, borrower: Address, id: Id, requested: Option<int>)
    requires LifeInv(s) && Lending.RepayStep(s, borrower, id, requested).Success?
    ensures LifeStep(s, Lending.RepayStep(s, borrower, id, requested).value)
  {
    assert ProposalOk(s.loans, s.roster.members.Keys, s.history.disbursals, id);
    var loan := Lending.Owed(s.loans.loans[id], s.config.policy, s.now);
    var amount := if requested.Some? then requested.value else loan.totalRepayment - loan.amountRepaid;
    RepayIsPayment(s, borrower, id, requested);
    assert s.loans.loans[id].id == id;
    PaidForward(s.loans.loans[id], s.config.policy, s.now, amount);
    PaymentShape(s, loan, amount);
    PaidLife(s, Lending.ApplyPayment(s, loan, amount).value, Lending.Credited(loan, amount));
  }

  lemma PaidLife(s: State, t: State, loan: Loan)
    requires LifeInv(s) && loan.id in s.loans.loans && LoanEvolves(s.loans.loans[loan.id], loan)
    requires t.loans == s.loans.(loans := s.loans.loans[loan.id := loan])
    requires t.roster.members.Keys == s.roster.members.Keys && t.history.disbursals == s.history.disbursals
    ensures LifeStep(s, t)
  {
    Serviced(s.loans, s.roster.members.Keys, s.history.disbursals, loan);
  }

  lemma PaidForward(loan: Loan, policy: Policy, now: nat, amount: int)
    requires loan.status == Active && amount > 0
    ensures LoanEvolves(loan, Lending.Credited(Lending.Owed(loan, policy, now), amount))
  {
    PenaltyNonNegative(loan.totalRepayment - loan.amountRepaid, policy.defaultPenaltyBps);
  }

  lemma PaymentShape(s: State, loan: Loan, amount: int)
    requires Lending.ApplyPayment(s, loan, amount).Success?
    ensures var t := Lending.ApplyPayment(s, loan, amount).value;
            && t.loans == Lending.Booked(s, loan, amount).loans
            && t.roster == Lending.Booked(s, loan, amount).roster
            && t.roster.members.Keys == s.roster.members.Keys
            && t.history.disbursals == s.history.disbursals && t.history.loanBallots == s.history.loanBallots
            && t.history.loanTraces ==
               (if LoanAsset(s, loan.id) == s.config.token
                then Record(s.history, InterestHanded(loan.id, Lending.InterestComponent(loan, amount))).loanTraces
                else s.history.loanTraces)
  {
  }

  lemma DefaultLife(s: State, id: Id)
    requires LifeInv(s) && Lending.DefaultStep(s, id).Success?
    ensures LifeStep(s, Lending.DefaultStep(s, id).value)
  {
    assert ProposalOk(s.loans, s.roster.members.Keys, s.history.disbursals, id);
    DefaultShape(s, id);
    assert Lending.DefaultStep(s, id).value.roster.members.Keys == s.roster.members.Keys;
    PaidLife(s, Lending.DefaultStep(s, id).value, s.loans.loans[id].(status := Defaulted));
  }

  lemma StepProposalLife(c: Crypto, s: State, a: Action)
    requires ProposalAction(a)
    requires LifeInv(s) && AttemptProposal(s, a).Success?
    ensures LifeStep(s, AttemptProposal(s, a).value)
  {
    match a
    case RequestLoan(who, amount, asset, cid) => RequestLife(s, who, amount, asset, cid);
    case EditLoan(who, id, amount) => EditLife(s, who, id, amount);
    case CancelLoan(who, id) => CancelLife(s, who, id);
    case ExpireLoan(id) => ExpireLife(s, id);
  }

  lemma StepLendLife(c: Crypto, s: State, a: Action)
    requires LendAction(a)
    requires LifeInv(s) && AttemptLend(s, a).Success?
    ensures LifeStep(s, AttemptLend(s, a).value)
  {
    match a
    case VoteLoan(who, id, support) => CastLoanVoteLife(s, who, id, support);
    case VoteLoans(who, votes) => CastLoanVotesLife(s, who, votes);
    case Disburse(id) => DisburseLife(s, id);
  }

  lemma StepServiceLife(c: Crypto, s: State, a: Action)
    requires ServiceAction(a)
    requires LifeInv(s) && AttemptService(s, a).Success?
    ensures LifeStep(s, AttemptService(s, a).value)
  {
    match a
    case Repay(who, id, requested) => RepayLife(s, who, id, requested);
    case RepayInAsset(who, id, _) => RepayLife(s, who, id, None);
    case MarkDefaulted(id) => DefaultLife(s, id);
  }

  lemma StepLife(c: Crypto, s: State, a: Action)
    requires LifeInv(s)
    ensures LifeStep(s, Step(c, s, a))
  {
    BookReflexive(s.loans);
    if ProposalAction(a) {
      if Attempt(c, s, a).Success? {
        StepProposalLife(c, s, a);
      }
    } else if LendAction(a) {
      if Attempt(c, s, a).Success? {
        StepLendLife(c, s, a);
      }
    } else if ServiceAction(a) {
      if Attempt(c, s, a).Success? {
        StepServiceLife(c, s, a);
      }
    } else {
      KeptLife(c, s, a);
    }
  }

  lemma KeptLife(c: Crypto, s: State, a: Action)
    requires LifeInv(s) && !ProposalAction(a) && !DebtAction(a)
    ensures LifeInv(Step(c, s, a)) && Step(c, s, a).loans == s.loans
  {
    var t := Step(c, s, a);
    if MemberAction(a) {
      MemberFrame(c, s, a);
    } else if TreasuryAction(a) {
      TreasuryFrame(c, s, a);
    } else {
      EnvironmentFrame(c, s, a);
    }
    MoreMembers(s.loans, s.roster.members.Keys, t.roster.members.Keys, s.history.disbursals);
  }

  lemma InitialLife(s: State)
    requires Initial(s)
    ensures LifeInv(s)
  {
  }

  /** Over any run, proposals keep their identity, deadlines and ballots, and move only forward. */
  lemma {:induction false} RunLife(c: Crypto, s: State, actions: seq<Action>)
    requires LifeInv(s)
    ensures LifeStep(s, Run(c, s, actions))
    decreases |actions|
  {
    if actions == [] {
      BookReflexive(s.loans);
    } else {
      var s1 := Step(c, s, actions[0]);
      StepLife(c, s, actions[0]);
      RunLife(c, s1, actions[1..]);
      EvolvesTransitive(s.loans, s1.loans, Run(c, s1, actions[1..]).loans);
    }
  }
}
