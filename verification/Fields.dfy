/** The vocabulary of the laws: what can be read off stored fields alone. Nothing here is shared with the functions
    the entrypoints are specified by, so that a law says what a caller observes, whatever those functions are. */
module Fields {
  import opened Types
  import opened Storage

  /** What an account holds of a token. */
  function Held(b: Balances, token: Address, who: Address): int {
    if (token, who) in b then b[(token, who)] else 0
  }

  /** What the contract can lend or pay of a token: all it holds, but not what members have staked. */
  function Pool(s: State, token: Address): int {
    Held(s.balances, token, s.config.self) - if token == s.config.token then s.staking.total else 0
  }

  /** One payment, and no other balance moved. */
  ghost predicate Moved(b: Balances, d: Balances, token: Address, from: Address, to: Address, amount: int) {
    && 0 <= amount <= Held(b, token, from)
    && forall t: Address, who: Address ::
         Held(d, t, who) == Held(b, t, who) - (if (t, who) == (token, from) then amount else 0)
                                            + (if (t, who) == (token, to) then amount else 0)
  }

  /** The token a loan or a withdrawal is in: the contract's own unless another was recorded. */
  function LoanToken(s: State, id: Id): Address {
    if id in s.loans.assets then s.loans.assets[id] else s.config.token
  }

  function WithdrawalToken(s: State, id: Id): Address {
    if id in s.treasury.assets then s.treasury.assets[id] else s.config.token
  }

  predicate Admitted(s: State, token: Address) {
    token == s.config.token || token in s.config.whitelist
  }

  /** The account is an active member. */
  predicate Enlisted(s: State, who: Address) {
    who in s.roster.members && s.roster.members[who].status == ActiveMember
  }

  function Staked(s: State, who: Address): int {
    if who in s.staking.stakes then s.staking.stakes[who] else 0
  }

  /** Yield that has accrued to a member since the last settlement. */
  function Accrued(s: State, who: Address): int {
    var seen := if who in s.accrual.snapshots then s.accrual.snapshots[who] else 0;
    if s.accrual.accumulator > seen then s.accrual.accumulator - seen else 0
  }

  function LeastOf(a: int, b: int): int { if a < b then a else b }

  /** A share in basis points, rounded up. */
  function ShareUp(amount: int, bps: int): int { (amount * bps + 9_999) / 10_000 }

  const MAX: int := 170_141_183_460_469_231_731_687_303_715_884_105_727

  const LAST_SECOND: int := 18_446_744_073_709_551_615

  lemma TransferMoves(b: Balances, token: Address, from: Address, to: Address, amount: int)
    ensures var r := Transfer(b, token, from, to, amount);
            && (r.Success? <==> 0 <= amount <= Held(b, token, from))
            && (r.Success? ==> Moved(b, r.value, token, from, to, amount))
  {
  }
}
