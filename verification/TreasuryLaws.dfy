/** Paying out of the pool: what is reserved, who may ask, which ballots count and when they decide, and when the
    money goes. */
module TreasuryLaws {
  import opened Types
  import opened Arithmetic
  import opened Storage
  import opened Sums
  import opened TreasuryOps
  import opened Fields
  import opened ProposalLaws
  import opened Voting
  import Frames
  import InnerFailures
  import Withdrawals

  // ---- what is reserved ----

  /** Loans in a token that are approved and not yet paid, with their amounts. */
  ghost function Parked(s: State, token: Address): map<Id, int> {
    map id | id in s.loans.proposals && s.loans.proposals[id].status == ApprovedPendingDisbursement
             && LoanToken(s, id) == token
           :: s.loans.proposals[id].amount
  }

  ghost function ParkedBelow(s: State, token: Address, n: nat): map<Id, int> {
    map id | id in Parked(s, token) && id < n :: Parked(s, token)[id]
  }

  lemma {:induction false} ReservedIsParked(s: State, token: Address, n: nat)
    requires n <= s.loans.next
    ensures ReservedCommitments(s.loans, s.config.token, token, n) == MapSum(ParkedBelow(s, token, n))
  {
    if n == 0 {
      assert ParkedBelow(s, token, 0) == map[];
    } else {
      var k: Id := n - 1;
      ReservedIsParked(s, token, k);
      var fewer, some := ParkedBelow(s, token, k), ParkedBelow(s, token, n);
      if Reserved(s.loans, s.config.token, token, k) {
        assert k in Parked(s, token) && k !in fewer;
        var grown := fewer[k := s.loans.proposals[k].amount];
        assert some == grown;
        MapSumUpdate(fewer, k, s.loans.proposals[k].amount);
      } else {
        assert k !in Parked(s, token);
        assert some == fewer;
      }
    }
  }

  /** The loop over all ids sums the loans that are approved and not yet paid. */
  lemma ReservedLaw(s: State, token: Address)
    requires IdsBounded(s)
    ensures ReservedCommitments(s.loans, s.config.token, token, s.loans.next) == MapSum(Parked(s, token))
  {
    ReservedIsParked(s, token, s.loans.next);
    assert ParkedBelow(s, token, s.loans.next) == Parked(s, token);
  }

  // ---- asking ----

  /** Everything but the money. */
  ghost predicate MayAsk(s: State, who: Address, amount: int, token: Address, payee: Address, reason: string) {
    && !s.config.paused && Enlisted(s, who) && amount > 0
    && payee != s.config.self && 1 <= |reason| <= 256
    && OpenOf(s, who) < 3 && Admitted(s, token)
  }

  /** A withdrawal can be proposed exactly when what is left of the pool, parked loans set aside, covers it; else it
      is refused for want of money. */
  lemma ProposalAcceptedIff(s: State, who: Address, amount: int, token: Address, payee: Address, reason: string,
                            isPrivate: bool)
    requires IdsBounded(s)
    ensures var r := ProposeStep(s, who, amount, token, payee, reason, isPrivate);
            && (r.Success? <==> && MayAsk(s, who, amount, token, payee, reason)
                                && amount + MapSum(Parked(s, token)) <= Pool(s, token)
                                && s.treasury.next < 4_294_967_295)
            && (MayAsk(s, who, amount, token, payee, reason) && amount + MapSum(Parked(s, token)) > Pool(s, token)
                ==> r == Failure(InsufficientTreasury))
  {
    OpenCounted(s, who);
    ReservedLaw(s, token);
  }

  lemma ProposalEffect(s: State, who: Address, amount: int, token: Address, payee: Address, reason: string,
                       isPrivate: bool)
    requires ProposeStep(s, who, amount, token, payee, reason, isPrivate).Success?
    ensures var t, id := ProposeStep(s, who, amount, token, payee, reason, isPrivate).value, s.treasury.next;
            && amount > 0 && id + 1 <= 4_294_967_295
            && t.treasury == s.treasury.(
                 next := id + 1,
                 proposals := s.treasury.proposals[id :=
                   TreasuryProposal(id, who, amount, payee, reason, s.now, Pending, 0, 0, 0,
                                    s.config.policy.votingPeriod, s.config.policy.treasuryThreshold, isPrivate)],
                 assets := if token == s.config.token then s.treasury.assets else s.treasury.assets[id := token])
            && t == s.(treasury := t.treasury, quota := t.quota)
  {
  }

  // ---- ballots ----

  /** A public vote runs to the end of one period, a private one through a second that follows the first. */
  predicate InPeriod(p: TreasuryProposal, now: nat) {
    if p.isPrivate then p.createdAt + p.votingPeriod < now <= p.createdAt + 2 * p.votingPeriod
    else now <= p.createdAt + p.votingPeriod
  }

  /** An open vote is accepted exactly from an active member, once, on a pending public withdrawal in its period. */
  lemma OpenVoteAcceptedIff(s: State, voter: Address, id: Id, support: bool)
    requires s.staking.total >= 0 && (id in s.treasury.proposals ==> s.treasury.proposals[id].id == id)
    ensures VoteStep(s, voter, id, support).Success?
            <==> && !s.config.paused && Enlisted(s, voter) && id in s.treasury.proposals
                 && var p := s.treasury.proposals[id];
                 !p.isPrivate && p.status == Pending && InPeriod(p, s.now) && (id, voter) !in s.treasury.voted
  {
    InnerFailures.VoteNeverTraps(s, voter, id, support);
  }

  /** A commitment is accepted exactly from an active member, once and before any vote, on a pending private
      withdrawal in its first period; it is recorded and nothing else. */
  lemma CommitmentLaw(s: State, voter: Address, id: Id, digest: Bytes32)
    ensures var r := CommitStep(s, voter, id, digest);
            && (r.Success? <==>
                  && !s.config.paused && Enlisted(s, voter) && id in s.treasury.proposals
                  && var p := s.treasury.proposals[id];
                  && p.isPrivate && p.status == Pending && s.now <= p.createdAt + p.votingPeriod
                  && (id, voter) !in s.treasury.voted && (id, voter) !in s.treasury.commits)
            && (r.Success? ==>
                  && r.value.treasury == s.treasury.(commits := s.treasury.commits[(id, voter) := digest])
                  && r.value == s.(treasury := r.value.treasury, history := r.value.history))
  {
  }

  /** A vote is revealed exactly by the member who committed to it, with the salt, in the second period of a pending
      private withdrawal. */
  lemma RevealAcceptedIff(c: Crypto, s: State, voter: Address, id: Id, support: bool, salt: Bytes32)
    requires s.staking.total >= 0 && (id in s.treasury.proposals ==> s.treasury.proposals[id].id == id)
    requires s.now <= LAST_SECOND
    ensures RevealStep(c, s, voter, id, support, salt).Success?
            <==> && !s.config.paused && Enlisted(s, voter) && id in s.treasury.proposals
                 && var p := s.treasury.proposals[id];
                 && p.isPrivate && p.status == Pending && InPeriod(p, s.now)
                 && (id, voter) in s.treasury.commits && (id, voter) !in s.treasury.voted
                 && s.treasury.commits[(id, voter)]
                    == c.sha256(c.xdr(voter) + BigEndian(id) + [if support then 1 else 0] + salt)
  {
    InnerFailures.RevealNeverTraps(c, s, voter, id, support, salt);
  }

  /** What a tally leads to. It is approved when the votes in favour reach the share the withdrawal was opened with,
      and paid at once when the pool covers it; rejected when six votes from every member not yet counted would not
      lift it to that share. */
  ghost predicate Resolved(s: State, q: TreasuryProposal) {
    var share := s.roster.active * q.treasuryThreshold;
    var left := if s.roster.active > q.votesCast then s.roster.active - q.votesCast else 0;
    q.status == if q.forVotes * 10_000 >= share then
                  if q.amount <= Pool(s, WithdrawalToken(s, q.id)) then Executed else ApprovedPendingDisbursement
                else if (q.forVotes + 6 * left) * 10_000 < share then Rejected
                else Pending
  }

  /** One payment to the payee, or none. */
  ghost predicate PaidOut(s: State, t: State, q: TreasuryProposal) {
    if q.status == Executed
    then Moved(s.balances, t.balances, WithdrawalToken(s, q.id), s.config.self, q.destination, q.amount)
    else t.balances == s.balances
  }

  /** An accepted ballot: the voter is recorded, the tally counted and decided, and the money gone exactly when it is
      approved and covered. */
  ghost predicate VoteOn(s: State, t: State, voter: Address, id: Id, support: bool, weight: int)
    requires id in s.treasury.proposals
  {
    var p := s.treasury.proposals[id];
    && id in t.treasury.proposals
    && var q := t.treasury.proposals[id];
    && q == p.(forVotes := p.forVotes + (if support then weight else 0),
               againstVotes := p.againstVotes + (if support then 0 else weight),
               votesCast := p.votesCast + 1, status := q.status)
    && Resolved(s, q) && PaidOut(s, t, q)
    && t.treasury == s.treasury.(proposals := s.treasury.proposals[id := q], voted := s.treasury.voted + {(id, voter)})
    && t == s.(treasury := t.treasury, balances := t.balances, quota := t.quota, history := t.history)
  }

  lemma PayoutPaidIff(s: State, p: TreasuryProposal)
    requires s.staking.total >= 0 && p.amount >= 0
    ensures var r := Execute(s, p);
            && !r.HostTrap? && (r.Refused? ==> r.state == s)
            && (r.Paid? <==> p.amount <= Pool(s, WithdrawalToken(s, p.id)))
  {
  }

  lemma PayoutEffect(s: State, p: TreasuryProposal)
    requires Execute(s, p).Paid?
    ensures var t := Execute(s, p).state;
            && t.treasury == s.treasury.(proposals := s.treasury.proposals[p.id := p.(status := Executed)])
            && Moved(s.balances, t.balances, WithdrawalToken(s, p.id), s.config.self, p.destination, p.amount)
            && t == s.(treasury := t.treasury, balances := t.balances, quota := t.quota, history := t.history)
  {
    TransferMoves(s.balances, WithdrawalToken(s, p.id), s.config.self, p.destination, p.amount);
  }

  lemma TallyEffect(s: State, p: TreasuryProposal, voter: Address, support: bool)
    requires s.staking.total >= 0 && p.id in s.treasury.proposals && s.treasury.proposals[p.id] == p
    requires Tally(s, p, voter, support).Success?
    ensures VoteOn(s, Tally(s, p, voter, support).value, voter, p.id, support, VotingWeight(s, voter))
  {
    var weight := VotingWeight(s, voter);
    TallyResolved(BallotCast(s, p.id, voter, support, weight), Counted(p, support, weight));
  }

  lemma TallyResolved(s: State, p: TreasuryProposal)
    requires s.staking.total >= 0 && p.status == Pending && Settle(s, p).Success?
    ensures SettledTo(s, Settle(s, p).value, p)
  {
    RequiredVotesExact(p.forVotes, s.roster.active, p.treasuryThreshold);
    RequiredVotesExact(p.forVotes + MaxRemaining(s.roster.active, p.votesCast), s.roster.active, p.treasuryThreshold);
    if p.forVotes >= RequiredVotes(s.roster.active, p.treasuryThreshold) {
      ApprovedResolved(s, p);
    }
  }

  ghost predicate SettledTo(s: State, t: State, p: TreasuryProposal) {
    && p.id in t.treasury.proposals
    && var q := t.treasury.proposals[p.id];
    && q == p.(status := q.status) && Resolved(s, q) && PaidOut(s, t, q)
    && t.treasury == s.treasury.(proposals := s.treasury.proposals[p.id := q])
    && t == s.(treasury := t.treasury, balances := t.balances, quota := t.quota, history := t.history)
  }

  lemma ApprovedResolved(s: State, p: TreasuryProposal)
    requires s.staking.total >= 0 && p.status == Pending && Settle(s, p).Success?
    requires p.forVotes >= RequiredVotes(s.roster.active, p.treasuryThreshold)
    requires p.forVotes * 10_000 >= s.roster.active * p.treasuryThreshold
    ensures SettledTo(s, Settle(s, p).value, p)
  {
    var approved := p.(status := ApprovedPendingDisbursement);
    PayoutPaidIff(s, approved);
    if Execute(s, approved).Paid? {
      PayoutEffect(s, approved);
      Withdrawals.Twice(s.treasury.proposals, p.id, p.(status := Executed), p.(status := Executed));
    }
  }

  lemma OpenVoteEffect(s: State, voter: Address, id: Id, support: bool)
    requires s.staking.total >= 0 && (id in s.treasury.proposals ==> s.treasury.proposals[id].id == id)
    requires VoteStep(s, voter, id, support).Success?
    ensures id in s.treasury.proposals
    ensures VoteOn(s, VoteStep(s, voter, id, support).value, voter, id, support, VotingWeight(s, voter))
  {
    Withdrawals.VoteIsTally(s, voter, id, support);
    TallyEffect(s, s.treasury.proposals[id], voter, support);
  }

  /** A reveal uses its commitment up, and counts like an open vote. */
  lemma RevealEffect(c: Crypto, s: State, voter: Address, id: Id, support: bool, salt: Bytes32)
    requires s.staking.total >= 0 && (id in s.treasury.proposals ==> s.treasury.proposals[id].id == id)
    requires RevealStep(c, s, voter, id, support, salt).Success?
    ensures id in s.treasury.proposals
    ensures var t := RevealStep(c, s, voter, id, support, salt).value;
            VoteOn(s.(treasury := s.treasury.(commits := s.treasury.commits - {(id, voter)})), t, voter, id, support,
                   VotingWeight(s, voter))
  {
    var s1 := CommitmentOpened(s, id, voter, support, salt);
    Frames.RevealIsTally(c, s, voter, id, support, salt);
    TallyEffect(s1, s.treasury.proposals[id], voter, support);
  }

  // ---- parked, cancelled, expired ----

  /** An approved, unpaid withdrawal can be paid exactly when the pool covers it. */
  lemma PayoutLaw(s: State, id: Id)
    requires s.staking.total >= 0 && (id in s.treasury.proposals ==> s.treasury.proposals[id].id == id)
    ensures var r := ExecuteApprovedStep(s, id);
            && (r.Success? <==>
                  && !s.config.paused && id in s.treasury.proposals
                  && s.treasury.proposals[id].status == ApprovedPendingDisbursement
                  && s.treasury.proposals[id].amount <= Pool(s, WithdrawalToken(s, id)))
            && (r.Success? ==>
                  && OnlyWithdrawal(s, r.value.(balances := s.balances, history := s.history), id,
                                    s.treasury.proposals[id].(status := Executed))
                  && PaidOut(s, r.value, s.treasury.proposals[id].(status := Executed)))
  {
    if id in s.treasury.proposals {
      var p := s.treasury.proposals[id];
      PayoutPaidIff(s, p);
      if Execute(s, p).Paid? {
        PayoutEffect(s, p);
        Withdrawals.Twice(s.treasury.proposals, id, p.(status := Executed), p.(status := Executed));
      }
    }
  }

  ghost predicate OnlyWithdrawal(s: State, t: State, id: Id, q: TreasuryProposal) {
    && t.treasury == s.treasury.(proposals := s.treasury.proposals[id := q])
    && t == s.(treasury := t.treasury, quota := t.quota)
  }

  /** Its proposer may cancel a pending withdrawal up to the end of the policy's editing period. */
  lemma CancelWithdrawalLaw(s: State, who: Address, id: Id)
    requires id in s.treasury.proposals ==> s.treasury.proposals[id].id == id
    ensures var r := CancelStep(s, who, id);
            && (r.Success? <==>
                  && !s.config.paused && Enlisted(s, who) && id in s.treasury.proposals
                  && var p := s.treasury.proposals[id];
                  p.proposer == who && p.status == Pending && s.now <= p.createdAt + s.config.policy.editingPeriod)
            && (r.Success? ==> OnlyWithdrawal(s, r.value, id, s.treasury.proposals[id].(status := Cancelled)))
  {
  }

  /** Anyone may expire a pending withdrawal once its first period is over, even a private one. */
  lemma ExpireWithdrawalLaw(s: State, id: Id)
    requires id in s.treasury.proposals ==> s.treasury.proposals[id].id == id
    ensures var r := ExpireStep(s, id);
            && (r.Success? <==>
                  && !s.config.paused && id in s.treasury.proposals
                  && var p := s.treasury.proposals[id];
                  p.status == Pending && s.now > p.createdAt + p.votingPeriod)
            && (r.Success? ==> OnlyWithdrawal(s, r.value, id, s.treasury.proposals[id].(status := Expired)))
  {
  }
}
