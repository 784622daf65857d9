/** Asking for a loan, and changing or ending the request: when each is possible, and what it leaves. */
module ProposalLaws {
  import opened Types
  import opened Arithmetic
  import opened Storage
  import opened Fields
  import opened LoanLaws
  import Lending
  import Lifecycle

  // ---- the quota ----

  /** A member's requests that are still pending, and before their deadline. */
  ghost function OpenRequests(b: LoanBook, who: Address, now: nat): set<Id> {
    set id | id in b.proposals && b.proposals[id].borrower == who && RequestOpen(b.proposals[id], now)
  }

  predicate RequestOpen(p: LoanProposal, now: nat) {
    p.status == Pending && now <= p.editingPeriodEnd + p.votingPeriod && now <= LAST_SECOND
  }

  /** The same for withdrawals; a private one runs for two voting periods. */
  ghost function OpenAsks(b: TreasuryBook, who: Address, now: nat): set<Id> {
    set id | id in b.proposals && b.proposals[id].proposer == who && AskOpen(b.proposals[id], now)
  }

  predicate AskOpen(p: TreasuryProposal, now: nat) {
    p.status == Pending && now <= p.createdAt + p.votingPeriod * (if p.isPrivate then 2 else 1) && now <= LAST_SECOND
  }

  ghost function OpenOf(s: State, who: Address): nat {
    |OpenRequests(s.loans, who, s.now)| + |OpenAsks(s.treasury, who, s.now)|
  }

  ghost predicate IdsBounded(s: State) {
    (forall id :: id in s.loans.proposals ==> id < s.loans.next)
    && (forall id :: id in s.treasury.proposals ==> id < s.treasury.next)
  }

  lemma {:induction false} RequestsCounted(b: LoanBook, who: Address, now: nat, n: nat)
    requires n <= b.next
    ensures OpenLoans(b, who, now, n) == |set id | id in OpenRequests(b, who, now) && id < n|
  {
    var below := set id | id in OpenRequests(b, who, now) && id < n;
    if n == 0 {
      assert below == {};
    } else {
      RequestsCounted(b, who, now, n - 1);
      var fewer := set id | id in OpenRequests(b, who, now) && id < n - 1;
      assert below == if n - 1 in OpenRequests(b, who, now) then fewer + {n - 1} else fewer;
    }
  }

  lemma AskOpenIff(p: TreasuryProposal, now: nat)
    ensures TreasuryOpen(p, now) <==> AskOpen(p, now)
  {
  }

  lemma {:induction false} AsksCounted(b: TreasuryBook, who: Address, now: nat, n: nat)
    requires n <= b.next
    ensures OpenWithdrawals(b, who, now, n) == |set id | id in OpenAsks(b, who, now) && id < n|
  {
    var below := set id | id in OpenAsks(b, who, now) && id < n;
    if n == 0 {
      assert below == {};
    } else {
      AsksCounted(b, who, now, n - 1);
      var fewer := set id | id in OpenAsks(b, who, now) && id < n - 1;
      if n - 1 in b.proposals {
        AskOpenIff(b.proposals[n - 1], now);
      }
      assert below == if n - 1 in OpenAsks(b, who, now) then fewer + {n - 1} else fewer;
    }
  }

  lemma OpenCounted(s: State, who: Address)
    requires IdsBounded(s)
    ensures OpenCount(s, who) == OpenOf(s, who)
  {
    RequestsCounted(s.loans, who, s.now, s.loans.next);
    AsksCounted(s.treasury, who, s.now, s.treasury.next);
    var requests, asks := OpenRequests(s.loans, who, s.now), OpenAsks(s.treasury, who, s.now);
    assert (set id | id in requests && id < s.loans.next) == requests;
    assert (set id | id in asks && id < s.treasury.next) == asks;
  }

  // ---- requests ----

  /** A member may borrow: no loan flagged, long enough a member, and rested since the last loan. */
  predicate MayBorrow(s: State, who: Address) {
    && Enlisted(s, who)
    && var m, policy := s.roster.members[who], s.config.policy;
    && !m.hasActiveLoan
    && (policy.minMembershipDuration == 0 || m.joinTime + policy.minMembershipDuration <= s.now)
    && (m.lastLoanTime == 0 || policy.cooldownPeriod == 0 || m.lastLoanTime + policy.cooldownPeriod <= s.now)
  }

  predicate CidFits(cid: Option<string>) {
    cid.None? || 1 <= |cid.value| <= 64
  }

  /** A request is accepted exactly from a member who may borrow and has fewer than three open proposals, for a
      positive amount of an admitted token within the policy's part of the pool, while ids last. */
  lemma RequestAcceptedIff(s: State, who: Address, amount: int, token: Address, cid: Option<string>)
    requires IdsBounded(s)
    ensures Lending.RequestStep(s, who, amount, token, cid).Success?
            <==> && !s.config.paused && MayBorrow(s, who) && Admitted(s, token) && CidFits(cid)
                 && OpenOf(s, who) < 3
                 && amount > 0 && amount * 10_000 <= Pool(s, token) * s.config.policy.maxLoanToTreasuryRatio <= MAX
                 && s.loans.next < 4_294_967_295
  {
    OpenCounted(s, who);
    EligibleIff(s, who);
    if amount > 0 {
      WithinPart(amount, Pool(s, token), s.config.policy);
    }
  }

  lemma EligibleIff(s: State, who: Address)
    ensures Lending.Eligible(s, who).Pass? <==> MayBorrow(s, who)
  {
  }

  lemma WithinPart(amount: int, pool: int, policy: Policy)
    requires amount > 0
    ensures amount <= Lending.MaxLoan(pool, policy) <==> amount * 10_000 <= pool * policy.maxLoanToTreasuryRatio <= MAX
  {
  }

  /** The proposal it opens, priced at the pool of the moment. */
  ghost predicate RequestedAs(s: State, t: State, who: Address, amount: int, token: Address, cid: Option<string>) {
    var id, policy := s.loans.next, s.config.policy;
    && id in t.loans.proposals && t.loans.next == id + 1
    && var p := t.loans.proposals[id];
    && amount > 0
    && p == LoanProposal(id, who, amount, p.interestRate, policy.maxLoanDuration, p.totalRepayment, s.now,
                         s.now + policy.editingPeriod, EditingPhase, Pending, 0, 0, 0, policy.votingPeriod, cid, None)
    && Priced(policy, amount, Pool(s, token), p.interestRate, p.totalRepayment)
    && t.loans.proposals == s.loans.proposals[id := p]
    && t.loans.assets == (if token == s.config.token then s.loans.assets else s.loans.assets[id := token])
    && t.loans.loans == s.loans.loans && t.loans.voted == s.loans.voted
    && t == s.(loans := t.loans, quota := t.quota)
  }

  lemma RequestEffect(s: State, who: Address, amount: int, token: Address, cid: Option<string>)
    requires Lending.RequestStep(s, who, amount, token, cid).Success?
    ensures RequestedAs(s, Lending.RequestStep(s, who, amount, token, cid).value, who, amount, token, cid)
  {
    WithinPart(amount, Pool(s, token), s.config.policy);
    FitsPool(amount, Pool(s, token), s.config.policy.maxLoanToTreasuryRatio);
    QuoteIsPriced(s.config.policy, amount, Pool(s, token));
  }

  lemma FitsPool(amount: int, pool: int, part: nat)
    requires amount > 0 && amount * 10_000 <= pool * part <= MAX
    ensures InI128(amount)
  {
  }

  // ---- editing, cancelling, expiring ----

  predicate Editable(s: State, who: Address, id: Id) {
    && !s.config.paused && Enlisted(s, who) && id in s.loans.proposals
    && s.loans.proposals[id].borrower == who
    && s.loans.proposals[id].phase == EditingPhase && s.now < s.loans.proposals[id].editingPeriodEnd
  }

  /** The borrower alone may change a request, before the end of editing; it is priced anew. */
  lemma EditLaw(s: State, who: Address, id: Id, amount: int)
    requires Lifecycle.LifeInv(s) && amount <= MAX
    ensures var r := Lending.EditStep(s, who, id, amount);
            && (r.Success? <==> Editable(s, who, id) && amount > 0)
            && (r.Success? ==>
                  && id in r.value.loans.proposals
                  && var q := r.value.loans.proposals[id];
                  && q == s.loans.proposals[id].(amount := amount, interestRate := q.interestRate,
                                                 duration := s.config.policy.maxLoanDuration,
                                                 totalRepayment := q.totalRepayment, lastEditedAt := Some(s.now))
                  && Priced(s.config.policy, amount, Pool(s, LoanToken(s, id)), q.interestRate, q.totalRepayment)
                  && OnlyProposal(s, r.value, id, q))
  {
    if id in s.loans.proposals {
      assert Lifecycle.ProposalOk(s.loans, s.roster.members.Keys, s.history.disbursals, id);
    }
    if amount > 0 {
      QuoteIsPriced(s.config.policy, amount, Pool(s, LoanToken(s, id)));
    }
  }

  /** One proposal is rewritten, and nothing but its borrower's quota with it. */
  ghost predicate OnlyProposal(s: State, t: State, id: Id, q: LoanProposal) {
    && t.loans == s.loans.(proposals := s.loans.proposals[id := q])
    && t == s.(loans := t.loans, quota := t.quota)
  }

  lemma CancelLaw(s: State, who: Address, id: Id)
    requires Lifecycle.LifeInv(s)
    ensures var r := Lending.CancelLoanStep(s, who, id);
            && (r.Success? <==> Editable(s, who, id))
            && (r.Success? ==>
                  OnlyProposal(s, r.value, id, s.loans.proposals[id].(status := Cancelled, phase := ExpiredPhase)))
  {
    if id in s.loans.proposals {
      assert Lifecycle.ProposalOk(s.loans, s.roster.members.Keys, s.history.disbursals, id);
    }
  }

  /** Past its voting deadline a request that nothing has decided can be expired; repeating that, or expiring one
      that has ended otherwise, changes nothing. */
  lemma ExpireLaw(s: State, id: Id)
    requires Lifecycle.LifeInv(s)
    ensures var r := Lending.ExpireLoanStep(s, id);
            && (r.Success? <==>
                  && !s.config.paused && id in s.loans.proposals
                  && var p := s.loans.proposals[id];
                  (p.status == Pending && s.now > p.editingPeriodEnd + p.votingPeriod)
                  || p.status == Rejected || p.status == Expired || p.status == Cancelled)
            && (r.Success? ==>
                  if s.loans.proposals[id].status == Pending
                  then OnlyProposal(s, r.value, id, s.loans.proposals[id].(status := Expired, phase := ExpiredPhase))
                  else r.value == s)
  {
    if id in s.loans.proposals {
      assert Lifecycle.ProposalOk(s.loans, s.roster.members.Keys, s.history.disbursals, id);
    }
  }
}
