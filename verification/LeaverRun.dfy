/** One run from initialisation, action by action: a member borrows twice, repays one loan, leaves, and
    defaults on the other. On the way the loan flag stops telling who owes, a repayment shares out more than
    its own interest, and in the end the contract offers its last member twice what it holds. */
module LeaverRun {
  import opened Types
  import opened Arithmetic
  import opened History
  import opened Storage
  import opened TreasuryOps
  import opened System
  import opened Reachability
  import opened Membership
  import Contributions
  import Credit
  import Exits
  import Lending
  import LoanFlags
  import Pricing
  import Voting

  const POLICY: Policy := RawPolicy(0, 1, 1, 1000, 1000, 0, 10_000, 0, 5000, 1, 1, 1, 0)

  const SETUP := Config(8, 9, 100, POLICY, 5000, false, {})

  /** Two wallets hold the fee; the contract is account 8 and its token is 9. */
  function Start(): State {
    State(0, SETUP, NO_MEMBERS, Staking(map[], 0, map[]), Accrual(0, 0, map[]), map[], NO_LOANS, NO_WITHDRAWALS, map[],
          map[(9, 0) := 100, (9, 1) := 100], EMPTY_HISTORY)
  }

  const JOINED: seq<Action> := [] + [Register(0)] + [Register(1)]
  const ASKED := JOINED + [RequestLoan(1, 20, 9, None)] + [RequestLoan(1, 20, 9, None)] + [Tick(1)]
  const LENT := ASKED + [VoteLoan(0, 0, true)] + [VoteLoan(0, 1, true)]
  const PAID_ONE := LENT + [Repay(1, 0, Some(1))]
  const PAID_TWO := PAID_ONE + [Repay(1, 0, Some(1))]
  const REPAID := PAID_TWO + [Repay(1, 0, None)]
  const LEFT := REPAID + [Exit(1)]
  const DEFAULTED := LEFT + [Tick(1)] + [MarkDefaulted(1)]

  // ---- the states along the way ----

  const STAYER := Member(0, ActiveMember, 0, 100, 100, false, 0, 0, 0, 0)

  function Borrower(status: MemberStatus, contribution: int, balance: int, flag: bool, last: nat, total: nat,
                    repaid: nat,
                    active: nat): Member {
    Member(1, status, 0, contribution, balance, flag, last, total, repaid, active)
  }

  function Both(borrower: Member, active: nat, contributions: int): Roster {
    Roster(map[0 := STAYER, 1 := borrower], [0, 1], 2, active, contributions)
  }

  function Asked(id: Id): LoanProposal {
    LoanProposal(id, 1, 20, 1000, 1, 22, 0, 1, EditingPhase, Pending, 0, 0, 0, 1, None, None)
  }

  function Granted(id: Id): LoanProposal {
    Asked(id).(phase := ExecutedPhase, status := Approved, forVotes := 1, votesCast := 1)
  }

  function Debt(id: Id, status: LoanStatus, repaid: int): Loan {
    Loan(id, 1, 20, 1000, 22, 1, 2, status, repaid)
  }

  function Granting(loans: map<Id, Loan>): LoanBook {
    LoanBook(2, map[0 := Granted(0), 1 := Granted(1)], loans, map[], {(0, 0), (1, 0)})
  }

  /** Everything an entrypoint of this run reads. */
  ghost predicate Scene(s: State, now: nat, roster: Roster, accrued: (int, int, int), loans: LoanBook,
                        held: (int, int, int)) {
    && s.now == now && s.config == SETUP && s.roster == roster && s.staking == Staking(map[], 0, map[])
    && s.accrual.accumulator == accrued.0 && s.accrual.remainder == accrued.1
    && SnapshotOf(s.accrual, 0) == 0 && SnapshotOf(s.accrual, 1) == accrued.2
    && s.delegations == map[] && s.loans == loans && s.treasury == NO_WITHDRAWALS
    && Balance(s.balances, 9, 8) == held.0 && Balance(s.balances, 9, 0) == held.1 && Balance(s.balances, 9, 1) == held.2
  }

  // ---- the steps ----

  lemma FirstJoins(s: State)
    requires s == Start()
    ensures RegisterStep(s, 0).Success?
    ensures Scene(RegisterStep(s, 0).value, 0, Roster(map[0 := STAYER], [0], 1, 1, 100), (0, 0, 0), NO_LOANS,
                  (100, 0, 100))
  {
  }

  lemma SecondJoins(s: State)
    requires Scene(s, 0, Roster(map[0 := STAYER], [0], 1, 1, 100), (0, 0, 0), NO_LOANS, (100, 0, 100))
    ensures RegisterStep(s, 1).Success?
    ensures Scene(RegisterStep(s, 1).value, 0, Both(Borrower(ActiveMember, 100, 100, false, 0, 0, 0, 0), 2, 200),
                  (0, 0, 0), NO_LOANS, (200, 0, 0))
  {
  }

  lemma Quoted(treasury: int)
    requires treasury > 0
    ensures Pricing.QuoteTerms(POLICY, 20, treasury) == LoanTerms(1000, 22, 1)
  {
    Pricing.RateBounds(POLICY, 20, treasury);
  }

  const MEMBER := Borrower(ActiveMember, 100, 100, false, 0, 0, 0, 0)

  lemma FirstAsked(s: State)
    requires Scene(s, 0, Both(MEMBER, 2, 200), (0, 0, 0), NO_LOANS, (200, 0, 0))
    ensures Lending.RequestStep(s, 1, 20, 9, None).Success?
    ensures Scene(Lending.RequestStep(s, 1, 20, 9, None).value, 0, Both(MEMBER, 2, 200), (0, 0, 0),
                  LoanBook(1, map[0 := Asked(0)], map[], map[], {}), (200, 0, 0))
  {
    Quoted(200);
    assert Lending.NewProposal(s, 1, 20, 9, None) == Asked(0);
  }

  lemma SecondAsked(s: State)
    requires Scene(s, 0, Both(MEMBER, 2, 200), (0, 0, 0), LoanBook(1, map[0 := Asked(0)], map[], map[], {}),
                   (200, 0, 0))
    ensures Lending.RequestStep(s, 1, 20, 9, None).Success?
    ensures Scene(Lending.RequestStep(s, 1, 20, 9, None).value, 0, Both(MEMBER, 2, 200), (0, 0, 0),
                  LoanBook(2, map[0 := Asked(0), 1 := Asked(1)], map[], map[], {}), (200, 0, 0))
  {
    Quoted(200);
    assert OpenLoans(s.loans, 1, 0, 0) == 0;
    assert Lending.NewProposal(s, 1, 20, 9, None) == Asked(1);
  }

  lemma OneVote(s: State)
    requires s.delegations == map[] && s.staking.stakes == map[]
    ensures Voting.VotingWeight(s, 0) == 1
  {
    NothingHanded(s.roster.list);
  }

  lemma {:induction false} NothingHanded(list: seq<Address>)
    ensures Voting.HandedTo(list, map[], map[], 0) == 0
  {
    if list != [] {
      NothingHanded(list[..|list| - 1]);
    }
  }

  /** The ballot approves: the bar is one vote of two members. */
  function Counted0(id: Id): LoanProposal {
    Asked(id).(phase := VotingPhase, forVotes := 1, votesCast := 1)
  }

  lemma BallotApproves(s: State, id: Id)
    requires s.now == 1 && s.config == SETUP && s.roster.active == 2 && s.delegations == map[]
             && s.staking.stakes == map[]
    requires id in s.loans.proposals && s.loans.proposals[id] == Asked(id) && (id, 0) !in s.loans.voted
    ensures Lending.CastLoanVote(s, 0, id, true)
              == Lending.SettleLoan(Lending.LoanBallotCast(s, id, 0, true, 1), Counted0(id))
    ensures RequiredVotes(2, 5000) == 1
  {
    OneVote(s);
    assert Lending.CountedLoan(Lending.RefreshPhase(Asked(id), 1), true, 1) == Counted0(id);
  }

  function Approving(id: Id): LoanProposal { Asked(id).(phase := ExecutedPhase, status := ApprovedPendingDisbursement,
                                                        forVotes := 1, votesCast := 1) }

  lemma Disbursed(s: State, id: Id, m: Member, held: int)
    requires s.now == 1 && s.config == SETUP && s.staking.total == 0 && s.loans.assets == map[]
    requires Balance(s.balances, 9, 8) == held && 20 <= held <= 200 && 1 in s.roster.members && s.roster.members[1] == m
    ensures Lending.ApproveAndDisburse(s, Approving(id)).Paid?
    ensures
      var t := Lending.ApproveAndDisburse(s, Approving(id)).state;
      && t == s.(loans := s.loans.(loans := s.loans.loans[id := Debt(id, Active, 0)]),
                 roster := s.roster.(members := s.roster.members[1 := Lending.Indebted(m, 1)]),
                 balances := t.balances, history := t.history)
      && Balance(t.balances, 9, 8) == held - 20
      && Balance(t.balances, 9, 0) == Balance(s.balances, 9, 0)
      && Balance(t.balances, 9, 1) == Balance(s.balances, 9, 1) + 20
  {
    Quoted(held);
    assert TreasuryIn(s, LoanAsset(s, id)) == held;
    assert Lending.WithinCap(Approving(id), POLICY, held);
  }

  lemma Settled(s: State, id: Id, m: Member, held: int)
    requires s.now == 1 && s.config == SETUP && s.staking.total == 0 && s.loans.assets == map[] && s.roster.active == 2
    requires Balance(s.balances, 9, 8) == held && 20 <= held <= 200 && 1 in s.roster.members && s.roster.members[1] == m
    ensures Lending.SettleLoan(s, Counted0(id)).Success?
    ensures
      var t := Lending.SettleLoan(s, Counted0(id)).value;
      && t == s.(loans := s.loans.(proposals := s.loans.proposals[id := Granted(id)],
                                   loans := s.loans.loans[id := Debt(id, Active, 0)]),
                 roster := s.roster.(members := s.roster.members[1 := Lending.Indebted(m, 1)]),
                 quota := t.quota, balances := t.balances, history := t.history)
      && Balance(t.balances, 9, 8) == held - 20
      && Balance(t.balances, 9, 0) == Balance(s.balances, 9, 0)
      && Balance(t.balances, 9, 1) == Balance(s.balances, 9, 1) + 20
  {
    var s1 := WithLoanProposal(s, Approving(id));
    Disbursed(s1, id, m, held);
    assert RequiredVotes(2, 5000) == 1;
    var t1 := Lending.ApproveAndDisburse(s1, Approving(id)).state;
    assert Lending.SettleLoan(s, Counted0(id)) == Success(WithLoanProposal(t1, Granted(id)));
    assert s.loans.proposals[id := Approving(id)][id := Granted(id)] == s.loans.proposals[id := Granted(id)];
  }

  const OWES_ONE := Borrower(ActiveMember, 100, 100, true, 1, 1, 0, 1)
  const OWES_TWO := Borrower(ActiveMember, 100, 100, true, 1, 2, 0, 2)

  lemma VoteSettles(s: State, id: Id)
    requires s.now == 1 && s.config == SETUP && s.roster.active == 2 && s.delegations == map[]
             && s.staking.stakes == map[]
    requires 0 in s.roster.members && s.roster.members[0] == STAYER
    requires id in s.loans.proposals && s.loans.proposals[id] == Asked(id) && (id, 0) !in s.loans.voted
    ensures Lending.LoanVoteStep(s, 0, id, true)
            == Lending.SettleLoan(Lending.LoanBallotCast(s, id, 0, true, 1), Counted0(id))
  {
    BallotApproves(s, id);
  }

  /** A vote that lends: the roster and the loan book after it, as map updates. */
  lemma Lent(s: State, id: Id, m: Member, held: int, wallet: int)
    requires Scene(s, 1, Both(m, 2, 200), (0, 0, 0), s.loans, (held, 0, wallet)) && s.loans.assets == map[]
    requires id in s.loans.proposals && s.loans.proposals[id] == Asked(id) && (id, 0) !in s.loans.voted
             && 20 <= held <= 200
    ensures Lending.LoanVoteStep(s, 0, id, true).Success?
    ensures Scene(Lending.LoanVoteStep(s, 0, id, true).value, 1, Both(Lending.Indebted(m, 1), 2, 200), (0, 0, 0),
                  s.loans.(proposals := s.loans.proposals[id := Granted(id)],
                           loans := s.loans.loans[id := Debt(id, Active, 0)],
                           voted := s.loans.voted + {(id, 0)}), (held - 20, 0, wallet + 20))
  {
    VoteSettles(s, id);
    var s1 := Lending.LoanBallotCast(s, id, 0, true, 1);
    Settled(s1, id, m, held);
    Rewritten(m, Lending.Indebted(m, 1));
    var t := Lending.SettleLoan(s1, Counted0(id)).value;
    assert t.roster == Both(Lending.Indebted(m, 1), 2, 200);
  }

  lemma Rewritten(m: Member, n: Member)
    ensures Both(m, 2, 200).(members := Both(m, 2, 200).members[1 := n]) == Both(n, 2, 200)
  {
    assert map[0 := STAYER, 1 := m][1 := n] == map[0 := STAYER, 1 := n];
  }

  lemma FirstLent(s: State)
    requires Scene(s, 1, Both(MEMBER, 2, 200), (0, 0, 0),
                   LoanBook(2, map[0 := Asked(0), 1 := Asked(1)], map[], map[], {}),
                   (200, 0, 0))
    ensures Lending.LoanVoteStep(s, 0, 0, true).Success?
    ensures Scene(Lending.LoanVoteStep(s, 0, 0, true).value, 1, Both(OWES_ONE, 2, 200), (0, 0, 0), HalfGranted(),
                  (180, 0, 20))
  {
    Lent(s, 0, MEMBER, 200, 0);
    assert Lending.Indebted(MEMBER, 1) == OWES_ONE;
    assert map[0 := Asked(0), 1 := Asked(1)][0 := Granted(0)] == map[0 := Granted(0), 1 := Asked(1)];
  }

  function HalfGranted(): LoanBook {
    LoanBook(2, map[0 := Granted(0), 1 := Asked(1)], map[0 := Debt(0, Active, 0)], map[], {(0, 0)})
  }

  lemma SecondLent(s: State)
    requires Scene(s, 1, Both(OWES_ONE, 2, 200), (0, 0, 0), HalfGranted(), (180, 0, 20))
    ensures Lending.LoanVoteStep(s, 0, 1, true).Success?
    ensures Scene(Lending.LoanVoteStep(s, 0, 1, true).value, 1, Both(OWES_TWO, 2, 200), (0, 0, 0), Owing(Active, 0),
                  (160, 0, 40))
  {
    Lent(s, 1, OWES_ONE, 180, 20);
    assert Lending.Indebted(OWES_ONE, 1) == OWES_TWO;
    assert map[0 := Granted(0), 1 := Asked(1)][1 := Granted(1)] == map[0 := Granted(0), 1 := Granted(1)];
    assert {(0, 0)} + {(1, 0)} == {(0, 0), (1, 0)};
  }

  /** What a payment by account 1 on a base-token loan changes. */
  lemma Applied(s: State, loan: Loan, amount: int)
    requires s.config == SETUP && s.loans.assets == map[] && loan.borrower == 1
    requires 0 < amount <= Balance(s.balances, 9, 1)
    ensures Lending.ApplyPayment(s, loan, amount).Success?
    ensures
      var t := Lending.ApplyPayment(s, loan, amount).value;
      var booked := Lending.Booked(s, loan, amount);
      var interest := Lending.InterestComponent(loan, amount);
      && t.now == s.now && t.config == s.config && t.staking == s.staking && t.delegations == s.delegations
      && t.treasury == s.treasury && t.loans == booked.loans && t.roster == booked.roster
      && t.accrual == (if interest <= 0 || booked.roster.active == 0 then s.accrual
                       else Lending.Shared(s.accrual, interest, booked.roster.active))
      && Balance(t.balances, 9, 8) == Balance(s.balances, 9, 8) + amount
      && Balance(t.balances, 9, 1) == Balance(s.balances, 9, 1) - amount
      && Balance(t.balances, 9, 0) == Balance(s.balances, 9, 0)
  {
  }

  /** What the first loan and the roster look like after a payment of `amount` in time. */
  function Settling(before: int, amount: int): Loan {
    Debt(0, if before + amount == 22 then Repaid else Active, before + amount)
  }

  function Released(roster: Roster, before: int, amount: int): Roster
    requires 1 in roster.members
  {
    if before + amount == 22 then roster.(members := roster.members[1 := Lending.Freed(roster.members[1])]) else roster
  }

  lemma Booked(s: State, before: int, amount: int)
    requires s.loans == Owing(Active, before) && 1 in s.roster.members
    ensures var t := Lending.Booked(s, Debt(0, Active, before), amount);
            && t.loans == Granting(map[0 := Settling(before, amount), 1 := Debt(1, Active, 0)])
            && t.roster == Released(s.roster, before, amount) && t.roster.active == s.roster.active
  {
    var paid := Settling(before, amount);
    assert Lending.Credited(Debt(0, Active, before), amount) == paid;
    assert map[0 := Debt(0, Active, before), 1 := Debt(1, Active, 0)][0 := paid]
             == map[0 := paid, 1 := Debt(1, Active, 0)];
  }

  lemma RepayApplies(s: State, before: int, amount: int)
    requires s.now == 1 && s.config == SETUP && s.loans == Owing(Active, before) && 0 < amount <= 22 - before
    ensures Lending.RepayStep(s, 1, 0, Some(amount)) == Lending.ApplyPayment(s, Debt(0, Active, before), amount)
    ensures amount == 22 - before ==>
              Lending.RepayStep(s, 1, 0, None) == Lending.ApplyPayment(s, Debt(0, Active, before), amount)
  {
    assert s.loans.loans[0] == Debt(0, Active, before);
    assert Lending.Owed(Debt(0, Active, before), POLICY, 1) == Debt(0, Active, before);
  }

  /** Accumulator and remainder after `interest` is shared by two members who have claimed nothing. */
  function AccruedAfter(acc: int, rem: int, interest: int): (int, int, int) {
    if interest <= 0 then (acc, rem, 0) else (acc + Max((interest + rem) / 2, 0), (interest + rem) % 2, 0)
  }

  /** A payment in time on the first loan. */
  lemma Paid(s: State, roster: Roster, acc: int, rem: int, before: int, amount: int, interest: int, held: int,
             wallet: int)
    requires Scene(s, 1, roster, (acc, rem, 0), Owing(Active, before), (held, 0, wallet))
    requires 1 in roster.members && roster.active == 2 && 0 < amount <= 22 - before && amount <= wallet
    requires interest == Lending.InterestComponent(Debt(0, Active, before), amount)
    ensures Lending.ApplyPayment(s, Debt(0, Active, before), amount).Success?
    ensures Scene(Lending.ApplyPayment(s, Debt(0, Active, before), amount).value, 1, Released(roster, before, amount),
                  AccruedAfter(acc, rem, interest),
                  Granting(map[0 := Settling(before, amount), 1 := Debt(1, Active, 0)]),
                  (held + amount, 0, wallet - amount))
  {
    Applied(s, Debt(0, Active, before), amount);
    Booked(s, before, amount);
  }

  const OWES_LAST := Borrower(ActiveMember, 100, 100, false, 1, 2, 1, 1)

  function Owing(status: LoanStatus, paid: int): LoanBook {
    Granting(map[0 := Debt(0, status, paid), 1 := Debt(1, Active, 0)])
  }

  /** One unit of interest paid. */
  lemma UnitPaid(s: State, before: int, after: int, acc: int, rem: int, held: int, wallet: int)
    requires Scene(s, 1, Both(OWES_TWO, 2, 200), (acc, rem, 0), Owing(Active, before), (held, 0, wallet))
    requires 0 <= before <= 1 <= wallet && after == before + 1
    ensures Lending.RepayStep(s, 1, 0, Some(1)).Success?
    ensures Lending.RepayStep(s, 1, 0, Some(1)).value.accrual == Lending.Shared(s.accrual, 1, 2)
    ensures Scene(Lending.RepayStep(s, 1, 0, Some(1)).value, 1, Both(OWES_TWO, 2, 200), AccruedAfter(acc, rem, 1),
                  Owing(Active, after), (held + 1, 0, wallet - 1))
  {
    RepayApplies(s, before, 1);
    Applied(s, Debt(0, Active, before), 1);
    Booked(s, before, 1);
    Paid(s, Both(OWES_TWO, 2, 200), acc, rem, before, 1, 1, held, wallet);
    assert Settling(before, 1) == Debt(0, Active, after);
  }

  lemma LastPaid(s: State)
    requires Scene(s, 1, Both(OWES_TWO, 2, 200), (1, 0, 0), Owing(Active, 2), (162, 0, 38))
    ensures Lending.RepayStep(s, 1, 0, None).Success?
    ensures Scene(Lending.RepayStep(s, 1, 0, None).value, 1, Both(OWES_LAST, 2, 200), (1, 0, 0), Owing(Repaid, 22),
                  (182, 0, 18))
  {
    RepayApplies(s, 2, 20);
    assert Settling(2, 20) == Debt(0, Repaid, 22);
    Paid(s, Both(OWES_TWO, 2, 200), 1, 0, 2, 20, 0, 162, 38);
    assert Lending.Freed(OWES_TWO) == OWES_LAST;
    assert map[0 := STAYER, 1 := OWES_TWO][1 := OWES_LAST] == map[0 := STAYER, 1 := OWES_LAST];
  }

  const GONE := Borrower(Inactive, 100, 0, false, 1, 2, 1, 1)
  const SLASHED := Borrower(Inactive, 50, 0, false, 1, 2, 1, 0)

  lemma Left(s: State)
    requires Scene(s, 1, Both(OWES_LAST, 2, 200), (1, 0, 0), Owing(Repaid, 22), (182, 0, 18))
    ensures ExitStep(s, 1).Success?
    ensures Scene(ExitStep(s, 1).value, 1, Both(GONE, 1, 100), (1, 0, 1), Owing(Repaid, 22), (90, 0, 110))
  {
    assert TreasuryIn(s, 9) == 182;
    assert ShareFromContributions(182, 100, 200) == 91;
    assert map[0 := STAYER, 1 := OWES_LAST][1 := GONE] == map[0 := STAYER, 1 := GONE];
  }

  lemma Slashed(s: State)
    requires Scene(s, 2, Both(GONE, 1, 100), (1, 0, 1), Owing(Repaid, 22), (90, 0, 110))
    ensures Lending.DefaultStep(s, 1).Success?
    ensures Scene(Lending.DefaultStep(s, 1).value, 2, Both(SLASHED, 1, 50), (1, 0, 1),
                  Granting(map[0 := Debt(0, Repaid, 22), 1 := Debt(1, Defaulted, 0)]), (90, 0, 110))
  {
    assert Lending.DefaultPenalty(100, 5000) == 50;
    assert Lending.Slashed(GONE, 50) == SLASHED;
    assert map[0 := STAYER, 1 := GONE][1 := SLASHED] == map[0 := STAYER, 1 := SLASHED];
    assert Debt(1, Active, 0).(status := Defaulted) == Debt(1, Defaulted, 0);
    assert map[0 := Debt(0, Repaid, 22), 1 := Debt(1, Active, 0)][1 := Debt(1, Defaulted, 0)]
        == map[0 := Debt(0, Repaid, 22), 1 := Debt(1, Defaulted, 0)];
  }

  // ---- the run ----

  lemma Joins(c: Crypto, s: State, actions: seq<Action>, t: State, who: Address) returns (u: State)
    requires t == Run(c, s, actions) && RegisterStep(t, who).Success?
    ensures u == Run(c, s, actions + [Register(who)]) == RegisterStep(t, who).value
  {
    u := RegisterStep(t, who).value;
    Next(c, s, actions, Register(who), t, u);
  }

  lemma Asks(c: Crypto, s: State, actions: seq<Action>, t: State) returns (u: State)
    requires t == Run(c, s, actions) && Lending.RequestStep(t, 1, 20, 9, None).Success?
    ensures u == Run(c, s, actions + [RequestLoan(1, 20, 9, None)]) == Lending.RequestStep(t, 1, 20, 9, None).value
  {
    u := Lending.RequestStep(t, 1, 20, 9, None).value;
    Next(c, s, actions, RequestLoan(1, 20, 9, None), t, u);
  }

  lemma Waits(c: Crypto, s: State, actions: seq<Action>, t: State) returns (u: State)
    requires t == Run(c, s, actions) && t.now <= 1
    ensures u == Run(c, s, actions + [Tick(1)]) == t.(now := t.now + 1)
  {
    u := t.(now := t.now + 1);
    Next(c, s, actions, Tick(1), t, u);
  }

  lemma Votes(c: Crypto, s: State, actions: seq<Action>, t: State, id: Id) returns (u: State)
    requires t == Run(c, s, actions) && Lending.LoanVoteStep(t, 0, id, true).Success?
    ensures u == Run(c, s, actions + [VoteLoan(0, id, true)]) == Lending.LoanVoteStep(t, 0, id, true).value
  {
    u := Lending.LoanVoteStep(t, 0, id, true).value;
    Next(c, s, actions, VoteLoan(0, id, true), t, u);
  }

  lemma Pays(c: Crypto, s: State, actions: seq<Action>, t: State, requested: Option<int>) returns (u: State)
    requires t == Run(c, s, actions) && Lending.RepayStep(t, 1, 0, requested).Success?
    ensures u == Run(c, s, actions + [Repay(1, 0, requested)]) == Lending.RepayStep(t, 1, 0, requested).value
  {
    u := Lending.RepayStep(t, 1, 0, requested).value;
    Next(c, s, actions, Repay(1, 0, requested), t, u);
  }

  lemma Leaves(c: Crypto, s: State, actions: seq<Action>, t: State) returns (u: State)
    requires t == Run(c, s, actions) && ExitStep(t, 1).Success?
    ensures u == Run(c, s, actions + [Exit(1)]) == ExitStep(t, 1).value
  {
    u := ExitStep(t, 1).value;
    Next(c, s, actions, Exit(1), t, u);
  }

  lemma Defaults(c: Crypto, s: State, actions: seq<Action>, t: State) returns (u: State)
    requires t == Run(c, s, actions) && Lending.DefaultStep(t, 1).Success?
    ensures u == Run(c, s, actions + [MarkDefaulted(1)]) == Lending.DefaultStep(t, 1).value
  {
    u := Lending.DefaultStep(t, 1).value;
    Next(c, s, actions, MarkDefaulted(1), t, u);
  }

  lemma ReachedOne(c: Crypto, s: State) returns (t: State)
    requires s == Start()
    ensures t == Run(c, s, [] + [Register(0)])
    ensures Scene(t, 0, Roster(map[0 := STAYER], [0], 1, 1, 100), (0, 0, 0), NO_LOANS, (100, 0, 100))
  {
    FirstJoins(s);
    t := Joins(c, s, [], s, 0);
  }

  lemma ReachedJoined(c: Crypto, s: State) returns (t: State)
    requires s == Start()
    ensures t == Run(c, s, JOINED)
    ensures Scene(t, 0, Both(MEMBER, 2, 200), (0, 0, 0), NO_LOANS, (200, 0, 0))
  {
    t := ReachedOne(c, s);
    SecondJoins(t);
    t := Joins(c, s, [] + [Register(0)], t, 1);
  }

  lemma ReachedAsked(c: Crypto, s: State) returns (t: State)
    requires s == Start()
    ensures t == Run(c, s, ASKED)
    ensures Scene(t, 1, Both(MEMBER, 2, 200), (0, 0, 0),
                  LoanBook(2, map[0 := Asked(0), 1 := Asked(1)], map[], map[], {}),
                  (200, 0, 0))
  {
    t := ReachedJoined(c, s);
    FirstAsked(t);
    t := Asks(c, s, JOINED, t);
    SecondAsked(t);
    t := Asks(c, s, JOINED + [RequestLoan(1, 20, 9, None)], t);
    t := Waits(c, s, JOINED + [RequestLoan(1, 20, 9, None)] + [RequestLoan(1, 20, 9, None)], t);
  }

  lemma ReachedLent(c: Crypto, s: State) returns (t: State)
    requires s == Start()
    ensures t == Run(c, s, LENT)
    ensures Scene(t, 1, Both(OWES_TWO, 2, 200), (0, 0, 0), Owing(Active, 0), (160, 0, 40))
  {
    t := ReachedAsked(c, s);
    FirstLent(t);
    t := Votes(c, s, ASKED, t, 0);
    SecondLent(t);
    t := Votes(c, s, ASKED + [VoteLoan(0, 0, true)], t, 1);
  }

  lemma ReachedPaidOne(c: Crypto, s: State) returns (t: State)
    requires s == Start()
    ensures t == Run(c, s, PAID_ONE)
    ensures Scene(t, 1, Both(OWES_TWO, 2, 200), (0, 1, 0), Owing(Active, 1), (161, 0, 39))
  {
    t := ReachedLent(c, s);
    UnitPaid(t, 0, 1, 0, 0, 160, 40);
    t := Pays(c, s, LENT, t, Some(1));
  }

  lemma ReachedRepaid(c: Crypto, s: State) returns (t: State)
    requires s == Start()
    ensures t == Run(c, s, REPAID)
    ensures Scene(t, 1, Both(OWES_LAST, 2, 200), (1, 0, 0), Owing(Repaid, 22), (182, 0, 18))
  {
    t := ReachedPaidOne(c, s);
    UnitPaid(t, 1, 2, 0, 1, 161, 39);
    t := Pays(c, s, PAID_ONE, t, Some(1));
    LastPaid(t);
    t := Pays(c, s, PAID_TWO, t, None);
  }

  lemma ReachedLeft(c: Crypto, s: State) returns (t: State)
    requires s == Start()
    ensures t == Run(c, s, LEFT)
    ensures Scene(t, 1, Both(GONE, 1, 100), (1, 0, 1), Owing(Repaid, 22), (90, 0, 110))
  {
    t := ReachedRepaid(c, s);
    Left(t);
    t := Leaves(c, s, REPAID, t);
  }

  lemma ReachedDefaulted(c: Crypto, s: State) returns (t: State)
    requires s == Start()
    ensures t == Run(c, s, DEFAULTED)
    ensures Scene(t, 2, Both(SLASHED, 1, 50), (1, 0, 1),
                  Granting(map[0 := Debt(0, Repaid, 22), 1 := Debt(1, Defaulted, 0)]),
                  (90, 0, 110))
  {
    t := ReachedLeft(c, s);
    t := Waits(c, s, LEFT, t);
    Slashed(t);
    t := Defaults(c, s, LEFT + [Tick(1)], t);
  }

  lemma Reached(c: Crypto, actions: seq<Action>)
    ensures Initial(Start()) && Reachable(c, Run(c, Start(), actions))
  {
  }

  // ---- what the run shows ----

  /** The documented exit-share bound fails in a reachable state: after the leaver's default the cached
      contributions are half of what the last member put in, that member is offered 180 out of a treasury of
      90, and cannot leave. */
  lemma LeaverDefaultOverpays(c: Crypto)
    ensures
      var t := Run(c, Start(), DEFAULTED);
      && Reachable(c, t)
      && t.roster.contributions == 50 && TotalActiveContributions(t.roster.list, t.roster.members) == 100
      && ExitShare(t, 0) == 180 && Exits.Treasury(t) == 90
      && ExitStep(t, 0) == Failure(InsufficientTreasury)
  {
    var t := ReachedDefaulted(c, Start());
    Reached(c, DEFAULTED);
    ReachableInv(c, t);
    Contributions.Drift(t);
    Overpaid(t);
  }

  lemma Overpaid(t: State)
    requires Scene(t, 2, Both(SLASHED, 1, 50), (1, 0, 1),
                   Granting(map[0 := Debt(0, Repaid, 22), 1 := Debt(1, Defaulted, 0)]),
                   (90, 0, 110))
    ensures TotalActiveContributions(t.roster.list, t.roster.members) == 100
    ensures t.roster.contributions == 50 && ExitShare(t, 0) == 180 && Exits.Treasury(t) == 90
    ensures ExitStep(t, 0) == Failure(InsufficientTreasury)
  {
    assert TreasuryIn(t, 9) == 90;
    assert ShareFromContributions(90, 100, 50) == 180;
    SmallScan(t.roster.members);
  }

  lemma SmallScan(ms: map<Address, Member>)
    requires ms == map[0 := STAYER, 1 := SLASHED]
    ensures TotalActiveContributions([0, 1], ms) == 100
  {
    var list: seq<Address> := [0, 1];
    assert list[..1] == [0] && list[..1][..0] == [];
    assert TotalActiveContributions([], ms) == 0;
    assert TotalActiveContributions(list[..1], ms) == 100;
  }

  /** The flag of account 1 against its active loans. */
  ghost predicate Flagged(t: State, flag: bool, loans: nat) {
    && 1 in t.roster.members && t.roster.members[1].hasActiveLoan == flag
    && |Credit.LoansOf(t.loans.loans, 1, Active)| == loans
  }

  /** The documented meaning of the loan flag fails in reachable states, both ways round: after the second
      loan the flag stands for two, */
  lemma FlagCoversTwoLoans(c: Crypto)
    ensures var t := Run(c, Start(), LENT);
            Reachable(c, t) && Flagged(t, true, 2) && !LoanFlags.FlagMeansOneLoan(t)
  {
    var t := ReachedLent(c, Start());
    Reached(c, LENT);
    ReachableInv(c, t);
    FlagCounted(c, t, Both(OWES_TWO, 2, 200));
  }

  /** and after one of them is repaid it is down while the other is owed. */
  lemma FlagDownWhileOwing(c: Crypto)
    ensures var t := Run(c, Start(), REPAID);
            Reachable(c, t) && Flagged(t, false, 1) && !LoanFlags.FlagMeansOneLoan(t)
  {
    var t := ReachedRepaid(c, Start());
    Reached(c, REPAID);
    ReachableInv(c, t);
    FlagCounted(c, t, Both(OWES_LAST, 2, 200));
  }

  lemma FlagCounted(c: Crypto, t: State, roster: Roster)
    requires Inv(c, t) && t.roster == roster && 1 in roster.members
    ensures Flagged(t, roster.members[1].hasActiveLoan, roster.members[1].activeLoans)
  {
    assert Credit.CountersOk(t.roster.members[1], t.loans.loans, 1);
  }

  /** The documented equal share fails in a reachable state: the second unit of interest is shared among two
      members, whose half would round to nothing, but the carried remainder makes it one each. */
  lemma RemainderSharedLater(c: Crypto)
    ensures
      var s, t := Run(c, Start(), PAID_ONE), Run(c, Start(), PAID_TWO);
      && Reachable(c, s) && s.roster.active == 2 && s.accrual.remainder == 1
      && t == Step(c, s, Repay(1, 0, Some(1)))
      && t.accrual == Lending.Shared(s.accrual, 1, 2)
      && t.accrual.accumulator - s.accrual.accumulator == 1 && 1 / 2 == 0
  {
    var s := ReachedPaidOne(c, Start());
    Reached(c, PAID_ONE);
    UnitPaid(s, 1, 2, 0, 1, 161, 39);
    var t := Pays(c, Start(), PAID_ONE, s, Some(1));
    StepPays(c, s);
  }

  lemma StepPays(c: Crypto, s: State)
    requires Lending.RepayStep(s, 1, 0, Some(1)).Success?
    ensures Step(c, s, Repay(1, 0, Some(1))) == Lending.RepayStep(s, 1, 0, Some(1)).value
  {
  }
}
