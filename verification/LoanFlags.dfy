/** `has_active_loan` against the loan table: when the flag means exactly one active loan. */
module LoanFlags {
  import opened Types
  import opened Arithmetic
  import opened Storage
  import opened TreasuryOps
  import opened System
  import opened Frames
  import opened Lifecycle
  import opened Cash
  import opened Credit
  import opened Voting
  import opened Reachability
  import Ballots
  import Books
  import Lending
  import Membership

  // ---- the documented invariant ----

  /** The flag is set exactly on the members with one active loan. */
  ghost predicate FlagMeansOneLoan(s: State) {
    forall who :: who in s.roster.members ==>
      (s.roster.members[who].hasActiveLoan <==> |LoansOf(s.loans.loans, who, Active)| == 1)
  }

  /** Nobody has more than one active loan, and the flag tells who has one. */
  ghost predicate FlagsExact(ms: map<Address, Member>) {
    forall who :: who in ms ==> FlagExact(ms[who])
  }

  ghost predicate FlagExact(m: Member) {
    m.activeLoans <= 1 && (m.hasActiveLoan <==> m.activeLoans == 1)
  }

  /** Someone carries the flag over two active loans or more. */
  ghost predicate Overlent(ms: map<Address, Member>) {
    exists who :: who in ms && ms[who].hasActiveLoan && ms[who].activeLoans >= 2
  }

  /** Someone has an active loan without the flag. */
  ghost predicate Unflagged(ms: map<Address, Member>) {
    exists who :: who in ms && !ms[who].hasActiveLoan && ms[who].activeLoans == 1
  }

  lemma FlagsDecide(s: State)
    requires CounterInv(s.roster.members, s.loans.loans)
    ensures FlagsExact(s.roster.members) ==> FlagMeansOneLoan(s)
    ensures Overlent(s.roster.members) || Unflagged(s.roster.members) ==> !FlagMeansOneLoan(s)
  {
    forall who | who in s.roster.members
      ensures s.roster.members[who].activeLoans == |LoansOf(s.loans.loans, who, Active)|
    {
      assert CountersOk(s.roster.members[who], s.loans.loans, who);
    }
  }

  // ---- the steps that break it ----

  /** A loan is paid to a borrower who still owes one: disbursement does not repeat the eligibility check. */
  ghost predicate Relends(s: State, t: State, id: Id) {
    && LentNow(s, t, id)
    && t.loans.proposals[id].borrower in s.roster.members
    && s.roster.members[t.loans.proposals[id].borrower].activeLoans >= 1
  }

  ghost predicate BatchRelends(s: State, voter: Address, votes: seq<ProposalVote>)
    decreases |votes|
  {
    if votes == [] then false
    else
      match Lending.CastLoanVote(s, voter, votes[0].proposalId, votes[0].vote)
      case Success(t) => Relends(s, t, votes[0].proposalId) || BatchRelends(t, voter, votes[1..])
      case Failure(_) => false
  }

  /** The flag of a member who returns is cleared, whatever is still owed. */
  predicate ReturnsOwing(s: State, who: Address) {
    who in s.roster.members && s.roster.members[who].activeLoans >= 1
  }

  ghost predicate LendBreaks(s: State, a: Action, t: State)
    requires LendAction(a)
  {
    match a
    case VoteLoan(_, id, _) => Relends(s, t, id)
    case VoteLoans(who, votes) => BatchRelends(s, who, votes)
    case Disburse(id) => Relends(s, t, id)
  }

  ghost predicate BreaksFlags(c: Crypto, s: State, a: Action) {
    && Attempt(c, s, a).Success?
    && if LendAction(a) then LendBreaks(s, a, Attempt(c, s, a).value) else a.Register? && ReturnsOwing(s, a.who)
  }

  // ---- effects on the flags ----

  lemma IndebtedFlags(ms: map<Address, Member>, b: Address, now: nat)
    requires FlagsExact(ms) && b in ms
    ensures var ns := ms[b := Lending.Indebted(ms[b], now)];
            if ms[b].activeLoans >= 1 then Overlent(ns) else FlagsExact(ns)
  {
    var ns := ms[b := Lending.Indebted(ms[b], now)];
    assert FlagExact(ms[b]);
    if ms[b].activeLoans >= 1 {
      assert b in ns && ns[b].hasActiveLoan && ns[b].activeLoans >= 2;
    }
  }

  lemma IndebtedStays(ms: map<Address, Member>, b: Address, now: nat)
    requires Overlent(ms) && b in ms
    ensures Overlent(ms[b := Lending.Indebted(ms[b], now)])
  {
    var who :| who in ms && ms[who].hasActiveLoan && ms[who].activeLoans >= 2;
    var ns := ms[b := Lending.Indebted(ms[b], now)];
    assert who in ns && ns[who].hasActiveLoan && ns[who].activeLoans >= 2;
  }

  /** What a lending step does to the records: nothing, or one more debt for the borrower it pays. */
  ghost predicate RecordsAfter(s: State, t: State, id: Id) {
    if LentNow(s, t, id) then
      var b := t.loans.proposals[id].borrower;
      b in s.roster.members
      && t.roster.members == s.roster.members[b := Lending.Indebted(s.roster.members[b], s.now)]
    else t.roster.members == s.roster.members
  }

  lemma RecordsFlags(s: State, t: State, id: Id)
    requires RecordsAfter(s, t, id)
    ensures FlagsExact(s.roster.members) ==>
              if Relends(s, t, id) then Overlent(t.roster.members) else FlagsExact(t.roster.members)
    ensures Overlent(s.roster.members) ==> Overlent(t.roster.members)
  {
    if LentNow(s, t, id) {
      var b := t.loans.proposals[id].borrower;
      if FlagsExact(s.roster.members) {
        IndebtedFlags(s.roster.members, b, s.now);
      }
      if Overlent(s.roster.members) {
        IndebtedStays(s.roster.members, b, s.now);
      }
    }
  }

  lemma SettledRecords(s: State, p: LoanProposal)
    requires p.status == Pending && p.borrower in s.roster.members && Lending.SettleLoan(s, p).Success?
    requires p.id in s.loans.proposals && s.loans.proposals[p.id].status != Approved
    ensures RecordsAfter(s, Lending.SettleLoan(s, p).value, p.id)
  {
    SettleLoanShape(s, p);
  }

  lemma VoteRecords(s: State, voter: Address, id: Id, support: bool)
    requires LifeInv(s) && Lending.CastLoanVote(s, voter, id, support).Success?
    ensures RecordsAfter(s, Lending.CastLoanVote(s, voter, id, support).value, id)
  {
    Votable(s, voter, id, support);
    NotYetLent(s, id);
    var weight := VotingWeight(s, voter);
    var s1 := Lending.LoanBallotCast(s, id, voter, support, weight);
    var counted := Lending.CountedLoan(Lending.RefreshPhase(s.loans.proposals[id], s.now), support, weight);
    Ballots.VoteIsSettle(s, voter, id, support);
    SettledRecords(s1, counted);
    SameBefore(s, s1, Lending.SettleLoan(s1, counted).value, id);
  }

  lemma SameBefore(s: State, s1: State, t: State, id: Id)
    requires s1.loans.proposals == s.loans.proposals && s1.roster == s.roster && s1.now == s.now
    ensures RecordsAfter(s1, t, id) ==> RecordsAfter(s, t, id)
  {
  }

  lemma DisburseRecords(s: State, id: Id)
    requires LifeInv(s) && Lending.DisburseStep(s, id).Success?
    ensures RecordsAfter(s, Lending.DisburseStep(s, id).value, id)
  {
    NotYetLent(s, id);
    DisburseLife(s, id);
  }

  lemma {:induction false} BatchFlags(s: State, voter: Address, votes: seq<ProposalVote>)
    requires LifeInv(s) && Lending.CastLoanVotes(s, voter, votes).Success?
    ensures FlagsExact(s.roster.members) ==>
              if BatchRelends(s, voter, votes)
              then Overlent(Lending.CastLoanVotes(s, voter, votes).value.roster.members)
              else FlagsExact(Lending.CastLoanVotes(s, voter, votes).value.roster.members)
    ensures Overlent(s.roster.members) ==> Overlent(Lending.CastLoanVotes(s, voter, votes).value.roster.members)
    decreases |votes|
  {
    if votes != [] {
      var id := votes[0].proposalId;
      var t := Lending.CastLoanVote(s, voter, id, votes[0].vote).value;
      VoteRecords(s, voter, id, votes[0].vote);
      RecordsFlags(s, t, id);
      CastLoanVoteLife(s, voter, id, votes[0].vote);
      BatchFlags(t, voter, votes[1..]);
    }
  }

  /** Closing a loan, paid or defaulted, clears a flag that meant exactly that loan. */
  lemma ClosedFlags(ms: map<Address, Member>, loans: map<Id, Loan>, id: Id, m: Member)
    requires FlagsExact(ms) && CounterInv(ms, loans) && id in loans && loans[id].status == Active
    requires !m.hasActiveLoan && m.activeLoans == SatSub(ms[loans[id].borrower].activeLoans, 1)
    ensures FlagsExact(ms[loans[id].borrower := m])
  {
    var b := loans[id].borrower;
    assert CountersOk(ms[b], loans, b) && FlagExact(ms[b]);
    assert id in LoansOf(loans, b, Active);
  }

  lemma RepayFlags(s: State, borrower: Address, id: Id, requested: Option<int>)
    requires FlagsExact(s.roster.members) && CounterInv(s.roster.members, s.loans.loans)
    requires id in s.loans.loans && s.loans.loans[id].id == id
    requires Lending.RepayStep(s, borrower, id, requested).Success?
    ensures FlagsExact(Lending.RepayStep(s, borrower, id, requested).value.roster.members)
  {
    var owed := Lending.Owed(s.loans.loans[id], s.config.policy, s.now);
    var amount := if requested.Some? then requested.value else owed.totalRepayment - owed.amountRepaid;
    RepayIsPayment(s, borrower, id, requested);
    PaymentShape(s, owed, amount);
    if owed.borrower in s.roster.members {
      ClosedFlags(s.roster.members, s.loans.loans, id, Lending.Freed(s.roster.members[owed.borrower]));
    }
  }

  lemma DefaultFlags(s: State, id: Id)
    requires FlagsExact(s.roster.members) && CounterInv(s.roster.members, s.loans.loans)
    requires Lending.DefaultStep(s, id).Success?
    ensures FlagsExact(Lending.DefaultStep(s, id).value.roster.members)
  {
    DefaultShape(s, id);
    var b := s.loans.loans[id].borrower;
    var penalty := Lending.DefaultPenalty(s.roster.members[b].contribution, s.config.policy.defaultPenaltyBps);
    ClosedFlags(s.roster.members, s.loans.loans, id, Lending.Slashed(s.roster.members[b], penalty));
  }

  lemma RegisterFlags(s: State, who: Address)
    requires FlagsExact(s.roster.members) && Membership.RegisterStep(s, who).Success?
    ensures var ms := Membership.RegisterStep(s, who).value.roster.members;
            if ReturnsOwing(s, who) then Unflagged(ms) else FlagsExact(ms)
  {
    Books.RegisterShape(s, who);
    var ms := Membership.RegisterStep(s, who).value.roster.members;
    if who in s.roster.members {
      assert FlagExact(s.roster.members[who]);
    }
    assert who in ms && !ms[who].hasActiveLoan;
  }

  lemma ExitFlags(s: State, who: Address)
    requires FlagsExact(s.roster.members) && Membership.ExitStep(s, who).Success?
    ensures FlagsExact(Membership.ExitStep(s, who).value.roster.members)
  {
    assert FlagExact(s.roster.members[who]);
    assert Membership.ExitStep(s, who).value.roster == Membership.Departed(s.roster, who);
  }

  // ---- every step ----

  lemma LendFlags(c: Crypto, s: State, a: Action)
    requires LendAction(a)
    requires LifeInv(s) && FlagsExact(s.roster.members) && AttemptLend(s, a).Success?
    ensures var ms := AttemptLend(s, a).value.roster.members;
            if LendBreaks(s, a, AttemptLend(s, a).value) then Overlent(ms) else FlagsExact(ms)
  {
    match a
    case VoteLoan(who, id, support) =>
      VoteRecords(s, who, id, support);
      RecordsFlags(s, AttemptLend(s, a).value, id);
    case VoteLoans(who, votes) => BatchFlags(s, who, votes);
    case Disburse(id) =>
      DisburseRecords(s, id);
      RecordsFlags(s, AttemptLend(s, a).value, id);
  }

  lemma ServiceFlags(c: Crypto, s: State, a: Action)
    requires ServiceAction(a)
    requires FlagsExact(s.roster.members) && CounterInv(s.roster.members, s.loans.loans)
             && AttemptService(s, a).Success?
    requires forall id :: id in s.loans.loans ==> s.loans.loans[id].id == id
    ensures FlagsExact(AttemptService(s, a).value.roster.members)
  {
    match a
    case Repay(who, id, requested) => RepayFlags(s, who, id, requested);
    case RepayInAsset(who, id, _) => RepayFlags(s, who, id, None);
    case MarkDefaulted(id) => DefaultFlags(s, id);
  }

  lemma MemberFlags(c: Crypto, s: State, a: Action)
    requires MemberAction(a) && FlagsExact(s.roster.members) && AttemptMember(s, a).Success?
    ensures var ms := AttemptMember(s, a).value.roster.members;
            if a.Register? && ReturnsOwing(s, a.who) then Unflagged(ms) else FlagsExact(ms)
  {
    match a
    case Register(who) => RegisterFlags(s, who);
    case Exit(who) => ExitFlags(s, who);
    case Claim(who) => Books.ClaimShape(s, who);
    case StakeTokens(who, amount) => Books.StakeShape(s, who, amount);
    case UnstakeTokens(who, amount) => Books.UnstakeShape(s, who, amount);
  }

  lemma OtherFlags(c: Crypto, s: State, a: Action)
    requires !MemberAction(a) && !DebtAction(a)
    ensures Step(c, s, a).roster == s.roster && !BreaksFlags(c, s, a)
  {
    if TreasuryAction(a) {
      TreasuryFrame(c, s, a);
    } else if ProposalAction(a) {
      ProposalFrame(c, s, a);
    } else {
      EnvironmentFrame(c, s, a);
    }
  }

  /** From exact flags, a step keeps them exact unless it is one of the two that break them. */
  lemma StepFlags(c: Crypto, s: State, a: Action)
    requires LifeInv(s) && CreditInv(s) && FlagsExact(s.roster.members)
    ensures var ms := Step(c, s, a).roster.members;
            if BreaksFlags(c, s, a) then Overlent(ms) || Unflagged(ms) else FlagsExact(ms)
  {
    if MemberAction(a) || DebtAction(a) {
      if Attempt(c, s, a).Success? {
        TriedFlags(c, s, a, Step(c, s, a).roster.members);
      }
    } else {
      OtherFlags(c, s, a);
    }
  }

  lemma TriedFlags(c: Crypto, s: State, a: Action, ms: map<Address, Member>)
    requires MemberAction(a) || DebtAction(a)
    requires LifeInv(s) && CreditInv(s) && FlagsExact(s.roster.members)
    requires Attempt(c, s, a).Success? && Attempt(c, s, a).value.roster.members == ms
    ensures if BreaksFlags(c, s, a) then Overlent(ms) || Unflagged(ms) else FlagsExact(ms)
  {
    if MemberAction(a) {
      TriedMember(c, s, a, ms);
    } else if LendAction(a) {
      TriedLend(c, s, a, ms);
    } else {
      TriedService(c, s, a, ms);
    }
  }

  lemma TriedLend(c: Crypto, s: State, a: Action, ms: map<Address, Member>)
    requires LendAction(a) && LifeInv(s) && FlagsExact(s.roster.members)
    requires Attempt(c, s, a).Success? && Attempt(c, s, a).value.roster.members == ms
    ensures if BreaksFlags(c, s, a) then Overlent(ms) else FlagsExact(ms)
  {
    LendFlags(c, s, a);
  }

  lemma TriedService(c: Crypto, s: State, a: Action, ms: map<Address, Member>)
    requires ServiceAction(a) && LifeInv(s) && FlagsExact(s.roster.members) && CreditInv(s)
    requires Attempt(c, s, a).Success? && Attempt(c, s, a).value.roster.members == ms
    ensures !BreaksFlags(c, s, a) && FlagsExact(ms)
  {
    LoanIds(s);
    ServiceFlags(c, s, a);
  }

  lemma LoanIds(s: State)
    requires LifeInv(s)
    ensures forall id :: id in s.loans.loans ==> s.loans.loans[id].id == id
  {
  }

  lemma TriedMember(c: Crypto, s: State, a: Action, ms: map<Address, Member>)
    requires MemberAction(a) && FlagsExact(s.roster.members)
    requires Attempt(c, s, a).Success? && Attempt(c, s, a).value.roster.members == ms
    ensures if BreaksFlags(c, s, a) then Unflagged(ms) else FlagsExact(ms)
  {
    MemberFlags(c, s, a);
  }

  // ---- every run ----

  /** The flag means one loan in the state and in every later state of the run. */
  ghost predicate FlagAlwaysMeansOneLoan(c: Crypto, s: State, actions: seq<Action>)
    decreases |actions|
  {
    FlagMeansOneLoan(s) && (actions == [] || FlagAlwaysMeansOneLoan(c, Step(c, s, actions[0]), actions[1..]))
  }

  /** No step of the run pays a loan to a borrower who still owes one, or lets a member return who does. */
  ghost predicate NeverBreaksFlags(c: Crypto, s: State, actions: seq<Action>)
    decreases |actions|
  {
    actions == [] || (!BreaksFlags(c, s, actions[0]) && NeverBreaksFlags(c, Step(c, s, actions[0]), actions[1..]))
  }

  /** From any state with exact flags, `has_active_loan` means exactly one active loan throughout a run if
      and only if no step of it pays a loan to a borrower who still owes one, and no member rejoins owing
      one. */
  lemma {:induction false} FlagMeansOneLoanIff(c: Crypto, s: State, actions: seq<Action>)
    requires Inv(c, s) && FlagsExact(s.roster.members)
    ensures FlagAlwaysMeansOneLoan(c, s, actions) <==> NeverBreaksFlags(c, s, actions)
    decreases |actions|
  {
    FlagsDecide(s);
    if actions != [] {
      var s1 := Step(c, s, actions[0]);
      StepFlags(c, s, actions[0]);
      StepInv(c, s, actions[0]);
      FlagsDecide(s1);
      if !BreaksFlags(c, s, actions[0]) {
        FlagMeansOneLoanIff(c, s1, actions[1..]);
      }
    }
  }

  /** In particular over every run from initialisation. */
  lemma FlagMeansOneLoanFromStart(c: Crypto, s: State, actions: seq<Action>)
    requires Initial(s)
    ensures FlagAlwaysMeansOneLoan(c, s, actions) <==> NeverBreaksFlags(c, s, actions)
  {
    InitialInv(c, s);
    InitialFlags(s);
    FlagMeansOneLoanIff(c, s, actions);
  }

  lemma InitialFlags(s: State)
    requires Initial(s)
    ensures FlagsExact(s.roster.members)
  {
  }
}
