/** Reference bookkeeping kept beside the state: who was credited what, every ballot with its weight, every
    payment. The contract never reads it. `Record` is the simple, O(members) account that the contract's own
    counters, accumulator and tallies are compared with. */
module History {
  import opened Types

  datatype Event =
    | Joined(who: Address)
    | Exited(who: Address, share: int, pending: int)
    | Claimed(who: Address, amount: int)
    | InterestPaid(amount: int)
    | LoanApproved(id: Id, borrower: Address, principal: int, totalRepayment: int)
    | InterestHanded(id: Id, amount: int)
    | LoanDefaulted(borrower: Address, penalty: int)
    | LoanVoteCast(id: Id, voter: Address, support: bool, weight: int)
    | TreasuryVoteCast(id: Id, voter: Address, support: bool, weight: int)
    | TreasuryPaid(id: Id, amount: int, destination: Address)
    | VoteCommitted(id: Id, voter: Address, digest: Bytes32, at: nat)
    | VoteRevealed(id: Id, voter: Address, support: bool, salt: Bytes32, at: nat)

  /** The eager ledger of yield: every active member's balance, credited one by one. `unshared` is the
      interest that arrived while nobody was active to share it. */
  datatype YieldLedger = YieldLedger(
    credit: map<Address, int>,
    remainder: int,
    accepted: int,
    unshared: int,
    claimed: int,
    paidAtExit: int,
    forfeited: int)

  datatype Ballot = Ballot(voter: Address, support: bool, weight: int)
  datatype LoanTrace = LoanTrace(quoted: int, handed: int)
  datatype Payment = Payment(amount: int, payee: Address)
  datatype Commitment = Commitment(digest: Bytes32, at: nat)
  datatype Opening = Opening(support: bool, salt: Bytes32, at: nat)

  datatype History = History(
    ledger: YieldLedger,
    slashedInactive: int,
    loanTraces: map<Id, LoanTrace>,
    disbursals: map<Id, seq<Payment>>,
    payouts: map<Id, seq<Payment>>,
    loanBallots: map<Id, seq<Ballot>>,
    treasuryBallots: map<Id, seq<Ballot>>,
    commits: map<(Id, Address), Commitment>,
    openings: map<(Id, Address), Opening>)

  const EMPTY_LEDGER := YieldLedger(map[], 0, 0, 0, 0, 0, 0)
  const EMPTY_HISTORY := History(EMPTY_LEDGER, 0, map[], map[], map[], map[], map[], map[], map[])

  function Listed<T>(m: map<Id, seq<T>>, id: Id): seq<T> {
    if id in m then m[id] else []
  }

  function Append<T>(m: map<Id, seq<T>>, id: Id, x: T): map<Id, seq<T>> {
    m[id := Listed(m, id) + [x]]
  }

  /** Credits every active member with an equal share and carries what cannot be split. */
  function CreditAll(l: YieldLedger, amount: int): YieldLedger {
    var n := |l.credit|;
    if n == 0 then l
    else
      var total := amount + l.remainder;
      l.(credit := map a | a in l.credit :: l.credit[a] + total / n,
         remainder := total % n,
         accepted := l.accepted + amount)
  }

  function RecordYield(l: YieldLedger, e: Event): YieldLedger {
    match e
    case Joined(who) => l.(credit := l.credit[who := 0])
    case Exited(who, _, pending) => l.(credit := l.credit - {who}, paidAtExit := l.paidAtExit + pending)
    case Claimed(who, amount) => l.(credit := l.credit[who := 0], claimed := l.claimed + amount)
    case InterestPaid(amount) => CreditAll(l, amount)
    case InterestHanded(_, amount) => if l.credit == map[] then l.(unshared := l.unshared + amount) else l
    case LoanDefaulted(borrower, _) =>
      if borrower in l.credit
      then l.(credit := l.credit[borrower := 0], forfeited := l.forfeited + l.credit[borrower])
      else l
    case _ => l
  }

  /** One event, entered in every book it concerns. */
  function Record(h: History, e: Event): History {
    match e
    case Joined(_) => h.(ledger := RecordYield(h.ledger, e))
    case Exited(_, _, _) => h.(ledger := RecordYield(h.ledger, e))
    case Claimed(_, _) => h.(ledger := RecordYield(h.ledger, e))
    case InterestPaid(_) => h.(ledger := RecordYield(h.ledger, e))
    case LoanApproved(id, borrower, principal, total) =>
      h.(loanTraces := h.loanTraces[id := LoanTrace(total - principal, 0)],
         disbursals := Append(h.disbursals, id, Payment(principal, borrower)))
    case InterestHanded(id, amount) =>
      h.(ledger := RecordYield(h.ledger, e),
         loanTraces :=
           if id in h.loanTraces
           then h.loanTraces[id := h.loanTraces[id].(handed := h.loanTraces[id].handed + amount)]
           else h.loanTraces)
    case LoanDefaulted(borrower, penalty) =>
      h.(ledger := RecordYield(h.ledger, e),
         slashedInactive := h.slashedInactive + if borrower in h.ledger.credit then 0 else penalty)
    case LoanVoteCast(id, voter, support, weight) =>
      h.(loanBallots := Append(h.loanBallots, id, Ballot(voter, support, weight)))
    case TreasuryVoteCast(id, voter, support, weight) =>
      h.(treasuryBallots := Append(h.treasuryBallots, id, Ballot(voter, support, weight)))
    case TreasuryPaid(id, amount, destination) =>
      h.(payouts := Append(h.payouts, id, Payment(amount, destination)))
    case VoteCommitted(id, voter, digest, at) =>
      h.(commits := h.commits[(id, voter) := Commitment(digest, at)])
    case VoteRevealed(id, voter, support, salt, at) =>
      h.(openings := h.openings[(id, voter) := Opening(support, salt, at)])
  }
}
