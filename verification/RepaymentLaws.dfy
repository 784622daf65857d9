/** Paying a loan back, and failing to: when it is possible, what it costs, and what it changes. */
module RepaymentLaws {
  import opened Types
  import opened Arithmetic
  import opened Storage
  import opened Fields
  import Frames
  import Lending
  import Lifecycle

  // ---- repayment ----

  /** What lateness adds to a loan: the policy's share of all that is still owed. An overflowing product adds
      nothing. */
  function Surcharge(x: Loan, bps: nat, now: nat): int {
    var open := x.totalRepayment - x.amountRepaid;
    if now > x.dueTime && open > 0 && open * bps + 9_999 <= MAX then ShareUp(open, bps) else 0
  }

  function StillOwed(x: Loan, bps: nat, now: nat): int {
    x.totalRepayment - x.amountRepaid + Surcharge(x, bps, now)
  }

  /** What a payment is of: the requested amount, or all that is owed. */
  function Due(x: Loan, bps: nat, now: nat, requested: Option<int>): int {
    match requested
    case Some(v) => v
    case None => StillOwed(x, bps, now)
  }

  lemma SurchargeIsOwed(x: Loan, policy: Policy, now: nat)
    ensures Lending.Owed(x, policy, now)
            == x.(totalRepayment := x.totalRepayment + Surcharge(x, policy.defaultPenaltyBps, now),
                  principal := x.principal + Surcharge(x, policy.defaultPenaltyBps, now))
  {
    var open, bps := x.totalRepayment - x.amountRepaid, policy.defaultPenaltyBps;
    if open > 0 {
      MulNonNegative(open, bps);
      if bps == 0 {
        assert open * bps == 0;
      }
    }
  }

  /** A repayment is accepted exactly when the borrower of an active loan offers a positive amount up to what is
      owed, late surcharge included, and holds it. */
  lemma RepaymentAcceptedIff(s: State, who: Address, id: Id, requested: Option<int>)
    requires Lifecycle.LifeInv(s)
    ensures Lending.RepayStep(s, who, id, requested).Success?
            <==> && !s.config.paused && id in s.loans.loans
                 && var x := s.loans.loans[id];
                 && x.borrower == who && x.status == Active
                 && var due := Due(x, s.config.policy.defaultPenaltyBps, s.now, requested);
                 && 0 < due <= StillOwed(x, s.config.policy.defaultPenaltyBps, s.now)
                 && due <= Held(s.balances, LoanToken(s, id), who)
  {
    if id in s.loans.loans && s.loans.loans[id].borrower == who {
      var x := s.loans.loans[id];
      assert Lifecycle.ProposalOk(s.loans, s.roster.members.Keys, s.history.disbursals, id);
      SurchargeIsOwed(x, s.config.policy, s.now);
      PaymentAcceptedIff(s, Lending.Owed(x, s.config.policy, s.now),
                         Due(x, s.config.policy.defaultPenaltyBps, s.now, requested));
    }
  }

  lemma PaymentAcceptedIff(s: State, loan: Loan, amount: int)
    ensures Lending.ApplyPayment(s, loan, amount).Success?
            <==> 0 <= amount <= Held(s.balances, LoanToken(s, loan.id), loan.borrower)
  {
  }

  /** The loan after a payment: longer by the surcharge, which is principal, and shorter by the payment; closed
      when nothing is owed any more. */
  function PaidOn(x: Loan, bps: nat, now: nat, paid: int): Loan {
    var late := Surcharge(x, bps, now);
    Loan(x.id, x.borrower, x.principal + late, x.interestRate, x.totalRepayment + late, x.startTime, x.dueTime,
         if paid == StillOwed(x, bps, now) then Repaid else x.status, x.amountRepaid + paid)
  }

  /** The record of a borrower who owes one loan less. */
  function Cleared(m: Member): Member {
    Member(m.address, m.status, m.joinTime, m.contribution, m.shareBalance, false, m.lastLoanTime, m.totalLoans,
           m.repaidLoans + 1, if m.activeLoans > 0 then m.activeLoans - 1 else 0)
  }

  /** The part of a payment that covers interest still unpaid; principal comes after all of it. */
  function InterestPart(x: Loan, paid: int): int {
    var interest := x.totalRepayment - x.principal;
    LeastOf(x.amountRepaid + paid, interest) - LeastOf(x.amountRepaid, interest)
  }

  /** Interest shared out equally, with what cannot be divided carried over; nothing while nobody is active. */
  ghost predicate SharedOut(y: Accrual, z: Accrual, interest: int, active: nat) {
    if interest > 0 && active > 0 then
      && (z.accumulator - y.accumulator) * active + z.remainder == interest + y.remainder
      && 0 <= z.remainder < active
      && z.snapshots == y.snapshots
    else z == y
  }

  lemma SharedOutExactly(y: Accrual, interest: int, active: nat)
    requires interest > 0 && active > 0 && y.remainder >= 0
    ensures SharedOut(y, Lending.Shared(y, interest, active), interest, active)
  {
    var total := interest + y.remainder;
    assert total == (total / active) * active + total % active;
    if total / active < 0 {
      MulMonotone(total / active, -1, active);
    }
  }

  /** What an accepted repayment does to the loan, to the borrower's record, to the yield and to the tokens. */
  ghost predicate RepaidAs(s: State, t: State, who: Address, id: Id, paid: int)
    requires id in s.loans.loans
  {
    var x, bps := s.loans.loans[id], s.config.policy.defaultPenaltyBps;
    && t.loans == s.loans.(loans := s.loans.loans[id := PaidOn(x, bps, s.now, paid)])
    && t.roster == (if paid == StillOwed(x, bps, s.now) && who in s.roster.members
                    then s.roster.(members := s.roster.members[who := Cleared(s.roster.members[who])])
                    else s.roster)
    && SharedOut(s.accrual, t.accrual, if LoanToken(s, id) == s.config.token then InterestPart(x, paid) else 0,
                 s.roster.active)
    && Moved(s.balances, t.balances, LoanToken(s, id), who, s.config.self, paid)
    && t == s.(loans := t.loans, roster := t.roster, accrual := t.accrual, balances := t.balances,
               history := t.history)
  }

  lemma RepaymentEffect(s: State, who: Address, id: Id, requested: Option<int>)
    requires Lifecycle.LifeInv(s) && s.accrual.remainder >= 0 && Lending.RepayStep(s, who, id, requested).Success?
    ensures id in s.loans.loans
    ensures RepaidAs(s, Lending.RepayStep(s, who, id, requested).value, who, id,
                     Due(s.loans.loans[id], s.config.policy.defaultPenaltyBps, s.now, requested))
  {
    var paid := RepaymentIsPayment(s, who, id, requested);
    var x := s.loans.loans[id];
    var owed := Lending.Owed(x, s.config.policy, s.now);
    PaymentEffect(s, owed, paid);
    SurchargeIsOwed(x, s.config.policy, s.now);
    BookedWithSurcharge(s, Lending.ApplyPayment(s, owed, paid).value, x, owed, paid);
  }

  lemma RepaymentIsPayment(s: State, who: Address, id: Id, requested: Option<int>) returns (paid: int)
    requires Lifecycle.LifeInv(s) && Lending.RepayStep(s, who, id, requested).Success?
    ensures id in s.loans.loans && s.loans.loans[id].id == id && s.loans.loans[id].borrower == who
    ensures paid == Due(s.loans.loans[id], s.config.policy.defaultPenaltyBps, s.now, requested)
    ensures Lending.RepayStep(s, who, id, requested)
            == Lending.ApplyPayment(s, Lending.Owed(s.loans.loans[id], s.config.policy, s.now), paid)
  {
    var x := s.loans.loans[id];
    assert Lifecycle.ProposalOk(s.loans, s.roster.members.Keys, s.history.disbursals, id);
    SurchargeIsOwed(x, s.config.policy, s.now);
    Lifecycle.RepayIsPayment(s, who, id, requested);
    paid := Due(x, s.config.policy.defaultPenaltyBps, s.now, requested);
  }

  lemma BookedWithSurcharge(s: State, t: State, x: Loan, owed: Loan, paid: int)
    requires x.id in s.loans.loans && s.loans.loans[x.id] == x
    requires var late := Surcharge(x, s.config.policy.defaultPenaltyBps, s.now);
             owed == x.(totalRepayment := x.totalRepayment + late, principal := x.principal + late)
    requires PaymentBooked(s, t, owed, paid)
    ensures RepaidAs(s, t, x.borrower, x.id, paid)
  {
    assert PaidOn(owed, 0, 0, paid) == PaidOn(x, s.config.policy.defaultPenaltyBps, s.now, paid);
    assert InterestPart(owed, paid) == InterestPart(x, paid);
  }

  /** The same for a loan with its surcharge already added. */
  ghost predicate PaymentBooked(s: State, t: State, x: Loan, paid: int) {
    && t.loans == s.loans.(loans := s.loans.loans[x.id := PaidOn(x, 0, 0, paid)])
    && t.roster == (if paid == x.totalRepayment - x.amountRepaid && x.borrower in s.roster.members
                    then s.roster.(members := s.roster.members[x.borrower := Cleared(s.roster.members[x.borrower])])
                    else s.roster)
    && SharedOut(s.accrual, t.accrual, if LoanToken(s, x.id) == s.config.token then InterestPart(x, paid) else 0,
                 s.roster.active)
    && Moved(s.balances, t.balances, LoanToken(s, x.id), x.borrower, s.config.self, paid)
    && t == s.(loans := t.loans, roster := t.roster, accrual := t.accrual, balances := t.balances,
               history := t.history)
  }

  lemma PaymentEffect(s: State, x: Loan, paid: int)
    requires s.accrual.remainder >= 0 && Lending.ApplyPayment(s, x, paid).Success?
    ensures PaymentBooked(s, Lending.ApplyPayment(s, x, paid).value, x, paid)
  {
    var s1 := Lending.Booked(s, x, paid);
    var s2 := Lending.HandedOut(s1, x.id, Lending.InterestComponent(x, paid));
    YieldEffect(s1, x.id, Lending.InterestComponent(x, paid));
    TransferMoves(s2.balances, LoanToken(s, x.id), x.borrower, s.config.self, paid);
  }

  lemma YieldEffect(s: State, id: Id, interest: int)
    requires s.accrual.remainder >= 0
    ensures var t := Lending.HandedOut(s, id, interest);
            && SharedOut(s.accrual, t.accrual, if LoanToken(s, id) == s.config.token then interest else 0,
                         s.roster.active)
            && t == s.(accrual := t.accrual, history := t.history)
  {
    if interest > 0 && s.roster.active > 0 {
      SharedOutExactly(s.accrual, interest, s.roster.active);
    }
  }

  /** Naming the token changes nothing but that the wrong one is refused. */
  lemma RepaymentInTokenIff(s: State, who: Address, id: Id, token: Address)
    ensures var named, plain := Lending.RepayInAssetStep(s, who, id, token), Lending.RepayStep(s, who, id, None);
            && (named.Success? <==> id in s.loans.loans && LoanToken(s, id) == token && plain.Success?)
            && (named.Success? ==> named == plain)
            && (id in s.loans.loans && LoanToken(s, id) != token ==> named == Failure(AssetMismatch))
  {
  }

  // ---- default ----

  /** An existing loan can be marked as defaulted exactly when it is active and its grace period is over. */
  lemma DefaultAcceptedIff(s: State, id: Id)
    requires !s.config.paused && id in s.loans.loans
    ensures var x := s.loans.loans[id];
            && (Lending.DefaultStep(s, id).Success?
                <==> x.status == Active && s.now >= x.dueTime + s.config.policy.defaultGracePeriod)
            && (x.status == Active && s.now < x.dueTime + s.config.policy.defaultGracePeriod
                ==> Lending.DefaultStep(s, id) == Failure(LoanNotOverdue))
  {
  }

  /** What a default costs: the policy's share of the contribution, rounded up, and never more than all of it. */
  function Slash(contribution: int, bps: nat): int {
    if contribution <= 0 || bps == 0 then 0
    else if contribution * bps + 9_999 <= MAX then LeastOf(ShareUp(contribution, bps), contribution)
    else contribution
  }

  /** The record of a borrower who has defaulted. */
  function Stripped(m: Member, bps: nat): Member {
    Member(m.address, m.status, m.joinTime, m.contribution - Slash(m.contribution, bps), m.shareBalance, false,
           m.lastLoanTime, m.totalLoans, m.repaidLoans, if m.activeLoans > 0 then m.activeLoans - 1 else 0)
  }

  /** The loan is closed; the borrower's record is slashed, the cached contributions with it, and what yield the
      borrower had not claimed is gone. No token moves. */
  ghost predicate DefaultedAs(s: State, t: State, id: Id)
    requires id in s.loans.loans
  {
    var x, bps := s.loans.loans[id], s.config.policy.defaultPenaltyBps;
    && t.loans == s.loans.(loans := s.loans.loans[id := x.(status := Defaulted)])
    && t == s.(loans := t.loans, roster := t.roster, accrual := t.accrual, history := t.history)
    && if x.borrower in s.roster.members then
         var m := s.roster.members[x.borrower];
         && t.roster == s.roster.(members := s.roster.members[x.borrower := Stripped(m, bps)],
                                  contributions := s.roster.contributions - Slash(m.contribution, bps))
         && t.accrual == s.accrual.(snapshots := s.accrual.snapshots[x.borrower := s.accrual.accumulator])
         && Accrued(t, x.borrower) == 0
       else t.roster == s.roster && t.accrual == s.accrual
  }

  lemma SlashIsPenalty(contribution: int, bps: nat)
    ensures Lending.DefaultPenalty(contribution, bps) == Slash(contribution, bps)
  {
    if contribution > 0 {
      MulNonNegative(contribution, bps);
    }
  }

  lemma DefaultEffect(s: State, id: Id)
    requires Lending.DefaultStep(s, id).Success?
    ensures id in s.loans.loans && DefaultedAs(s, Lending.DefaultStep(s, id).value, id)
  {
    Frames.DefaultShape(s, id);
    var b := s.loans.loans[id].borrower;
    if b in s.roster.members {
      SlashIsPenalty(s.roster.members[b].contribution, s.config.policy.defaultPenaltyBps);
    }
  }
}
