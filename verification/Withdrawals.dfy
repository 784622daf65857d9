/** Withdrawal proposals over any run: tallies, payouts and the commit-reveal discipline. */
module Withdrawals {
  import opened Types
  import opened Arithmetic
  import opened History
  import opened Storage
  import opened TreasuryOps
  import opened System
  import opened Frames
  import opened Ballots
  import opened Voting

  // ---- the invariant ----

  ghost function PaidBy(p: TreasuryProposal): seq<Payment> {
    if p.status == Executed then [Payment(p.amount, p.destination)] else []
  }

  /** A proposal, its ballots and the payments made for it. */
  ghost predicate WithdrawalOk(p: TreasuryProposal, id: Id, bs: seq<Ballot>, voters: set<Address>, paid: seq<Payment>) {
    && p.id == id && p.amount > 0
    && p.status != Approved
    && TallyOk(p.forVotes, p.againstVotes, p.votesCast, bs, voters)
    && paid == PaidBy(p)
  }

  /** Commitments are accepted up to here, and opened only later. */
  ghost function CommitEnd(p: TreasuryProposal): nat { p.createdAt + p.votingPeriod }

  /** A counted vote on a private proposal opens a commitment that its voter made in time. */
  ghost predicate OpenedOk(c: Crypto, p: TreasuryProposal, k: (Id, Address), h: History) {
    && k in h.commits && k in h.openings
    && p.createdAt <= h.commits[k].at <= CommitEnd(p)
    && CommitEnd(p) < h.openings[k].at <= CommitEnd(p) + p.votingPeriod
    && h.commits[k].digest == CommitmentOf(c, k.1, k.0, h.openings[k].support, h.openings[k].salt)
  }

  ghost predicate SupportMatches(bs: seq<Ballot>, id: Id, openings: map<(Id, Address), Opening>) {
    forall i :: 0 <= i < |bs| ==> (id, bs[i].voter) in openings && openings[(id, bs[i].voter)].support == bs[i].support
  }

  /** What holds of a pending or consumed commitment. */
  ghost predicate CommitOk(b: TreasuryBook, k: (Id, Address), h: History)
    requires k in b.commits
  {
    && k.0 in b.proposals && b.proposals[k.0].isPrivate
    && k !in b.voted
    && k in h.commits && h.commits[k].digest == b.commits[k]
    && b.proposals[k.0].createdAt <= h.commits[k].at <= CommitEnd(b.proposals[k.0])
  }

  ghost predicate VotedOk(c: Crypto, b: TreasuryBook, k: (Id, Address), h: History) {
    && k.0 in b.proposals
    && (b.proposals[k.0].isPrivate ==> OpenedOk(c, b.proposals[k.0], k, h))
  }

  ghost predicate ProposalsInv(b: TreasuryBook, ballots: map<Id, seq<Ballot>>,
                               payouts: map<Id, seq<Payment>>, now: nat) {
    forall id :: id in b.proposals ==>
      && id < b.next && b.proposals[id].createdAt <= now
      && WithdrawalOk(b.proposals[id], id, Listed(ballots, id), VotedFor(b.voted, id), Listed(payouts, id))
  }

  ghost predicate PrivacyInv(c: Crypto, b: TreasuryBook, h: History, now: nat) {
    && (forall k :: k in b.commits ==> CommitOk(b, k, h))
    && (forall k :: k in b.voted ==> VotedOk(c, b, k, h))
    && (forall id :: id in b.proposals && b.proposals[id].isPrivate ==>
         && SupportMatches(Listed(h.treasuryBallots, id), id, h.openings)
         && (now <= CommitEnd(b.proposals[id]) ==> VotedFor(b.voted, id) == {}))
  }

  ghost predicate TreasuryInv(c: Crypto, b: TreasuryBook, h: History, now: nat) {
    && ProposalsInv(b, h.treasuryBallots, h.payouts, now)
    && PrivacyInv(c, b, h, now)
    && KnownIds(b, h.treasuryBallots, h.payouts)
  }

  ghost predicate KnownIds(b: TreasuryBook, ballots: map<Id, seq<Ballot>>, payouts: map<Id, seq<Payment>>) {
    && (forall id :: id in b.assets ==> id < b.next)
    && (forall id :: id in ballots || id in payouts ==> id in b.proposals)
  }

  ghost predicate WithdrawalInv(c: Crypto, s: State) {
    TreasuryInv(c, s.treasury, s.history, s.now)
  }

  // ---- forward movement ----

  ghost predicate WithdrawalForward(a: ProposalStatus, b: ProposalStatus) {
    a == b || a == Pending || (a == ApprovedPendingDisbursement && b == Executed)
  }

  ghost predicate SameRequest(p: TreasuryProposal, q: TreasuryProposal) {
    && q.id == p.id && q.proposer == p.proposer && q.amount == p.amount && q.destination == p.destination
    && q.createdAt == p.createdAt && q.votingPeriod == p.votingPeriod && q.treasuryThreshold == p.treasuryThreshold
    && q.isPrivate == p.isPrivate
  }

  ghost predicate TreasuryEvolves(b: TreasuryBook, c: TreasuryBook) {
    && b.next <= c.next
    && b.voted <= c.voted
    && (forall k :: k in b.commits ==> k in c.commits || k in c.voted)
    && (forall id :: id in b.proposals ==> id in c.proposals && SameRequest(b.proposals[id], c.proposals[id])
                                           && WithdrawalForward(b.proposals[id].status, c.proposals[id].status))
    && (forall id :: id in c.proposals && id !in b.proposals ==> id >= b.next)
  }

  lemma TreasuryReflexive(b: TreasuryBook)
    ensures TreasuryEvolves(b, b)
  {
  }

  lemma TreasuryTransitive(b: TreasuryBook, c: TreasuryBook, d: TreasuryBook)
    requires TreasuryEvolves(b, c) && TreasuryEvolves(c, d)
    ensures TreasuryEvolves(b, d)
  {
  }

  // ---- changes to the treasury book ----

  /** Moving a proposal to a new status without paying. */
  lemma StatusMoved(c: Crypto, b: TreasuryBook, h: History, now: nat, id: Id, status: ProposalStatus)
    requires TreasuryInv(c, b, h, now) && id in b.proposals
    requires WithdrawalForward(b.proposals[id].status, status) && status != Approved
    requires status == Executed ==> b.proposals[id].status == Executed
    requires b.proposals[id].status == Executed ==> status == Executed
    ensures var n := b.(proposals := b.proposals[id := b.proposals[id].(status := status)]);
            TreasuryInv(c, n, h, now) && TreasuryEvolves(b, n)
  {
    MovedEvolves(b, id, status);
    MovedProposals(b, h.treasuryBallots, h.payouts, now, id, status);
    MovedPrivacy(c, b, h, now, id, status);
  }

  lemma MovedEvolves(b: TreasuryBook, id: Id, status: ProposalStatus)
    requires id in b.proposals && WithdrawalForward(b.proposals[id].status, status)
    ensures TreasuryEvolves(b, b.(proposals := b.proposals[id := b.proposals[id].(status := status)]))
  {
  }

  lemma MovedProposals(b: TreasuryBook, ballots: map<Id, seq<Ballot>>, payouts: map<Id, seq<Payment>>, now: nat, id: Id,
                       status: ProposalStatus)
    requires ProposalsInv(b, ballots, payouts, now) && id in b.proposals && status != Approved
    requires status == Executed <==> b.proposals[id].status == Executed
    ensures ProposalsInv(b.(proposals := b.proposals[id := b.proposals[id].(status := status)]), ballots, payouts, now)
  {
  }

  lemma MovedPrivacy(c: Crypto, b: TreasuryBook, h: History, now: nat, id: Id, status: ProposalStatus)
    requires PrivacyInv(c, b, h, now) && id in b.proposals
    ensures PrivacyInv(c, b.(proposals := b.proposals[id := b.proposals[id].(status := status)]), h, now)
  {
    var n := b.(proposals := b.proposals[id := b.proposals[id].(status := status)]);
    forall k | k in n.commits
      ensures CommitOk(n, k, h)
    {
      assert CommitOk(b, k, h);
    }
    forall k | k in n.voted
      ensures VotedOk(c, n, k, h)
    {
      assert VotedOk(c, b, k, h);
    }
  }

  /** Executing a proposal: the status and its one payment appear together. */
  lemma PaidOut(c: Crypto, b: TreasuryBook, h: History, now: nat, id: Id)
    requires TreasuryInv(c, b, h, now) && id in b.proposals
    requires b.proposals[id].status == Pending || b.proposals[id].status == ApprovedPendingDisbursement
    ensures var p := b.proposals[id];
            var n := b.(proposals := b.proposals[id := p.(status := Executed)]);
            var g := h.(payouts := Append(h.payouts, id, Payment(p.amount, p.destination)));
            TreasuryInv(c, n, g, now) && TreasuryEvolves(b, n)
  {
    var p := b.proposals[id];
    var n := b.(proposals := b.proposals[id := p.(status := Executed)]);
    var g := h.(payouts := Append(h.payouts, id, Payment(p.amount, p.destination)));
    MovedEvolves(b, id, Executed);
    MovedPrivacy(c, b, h, now, id, Executed);
    PrivacyKept(c, n, h, g, now);
    PaidProposals(b, h.treasuryBallots, h.payouts, now, id);
  }

  lemma PaidProposals(b: TreasuryBook, ballots: map<Id, seq<Ballot>>, payouts: map<Id, seq<Payment>>, now: nat, id: Id)
    requires ProposalsInv(b, ballots, payouts, now) && id in b.proposals && b.proposals[id].status != Executed
    ensures var p := b.proposals[id];
            ProposalsInv(b.(proposals := b.proposals[id := p.(status := Executed)]), ballots,
                         Append(payouts, id, Payment(p.amount, p.destination)), now)
  {
    assert Listed(payouts, id) == [];
  }

  lemma PrivacyKept(c: Crypto, b: TreasuryBook, h: History, g: History, now: nat)
    requires PrivacyInv(c, b, h, now)
    requires g.commits == h.commits && g.openings == h.openings && g.treasuryBallots == h.treasuryBallots
    ensures PrivacyInv(c, b, g, now)
  {
    forall k | k in b.commits
      ensures CommitOk(b, k, g)
    {
      assert CommitOk(b, k, h);
    }
    forall k | k in b.voted
      ensures VotedOk(c, b, k, g)
    {
      assert VotedOk(c, b, k, h);
    }
  }

  /** A fresh proposal under the next id: no ballot, commitment or payment names it yet. */
  ghost predicate Fresh(b: TreasuryBook, now: nat, q: TreasuryProposal, n: TreasuryBook) {
    && q.id == b.next && q.amount > 0 && q.status == Pending && q.createdAt == now
    && q.forVotes == 0 && q.againstVotes == 0 && q.votesCast == 0
    && n.proposals == b.proposals[q.id := q] && n.next == b.next + 1 && n.voted == b.voted && n.commits == b.commits
    && (forall id :: id in n.assets ==> id in b.assets || id == q.id)
  }

  lemma OpenedProposal(c: Crypto, b: TreasuryBook, h: History, now: nat, q: TreasuryProposal, n: TreasuryBook)
    requires TreasuryInv(c, b, h, now) && Fresh(b, now, q, n)
    ensures TreasuryInv(c, n, h, now) && TreasuryEvolves(b, n)
  {
    assert b.next !in b.proposals;
    NoBallotsYet(c, b, h, now);
    OpenedProposals(b, h.treasuryBallots, h.payouts, now, q, n);
    OpenedPrivacy(c, b, h, now, q, n);
    OpenedEvolves(b, now, q, n);
  }

  lemma NoBallotsYet(c: Crypto, b: TreasuryBook, h: History, now: nat)
    requires PrivacyInv(c, b, h, now) && b.next !in b.proposals
    ensures VotedFor(b.voted, b.next) == {}
  {
    forall k | k in b.voted
      ensures k.0 != b.next
    {
      assert VotedOk(c, b, k, h);
    }
  }

  lemma OpenedProposals(b: TreasuryBook, ballots: map<Id, seq<Ballot>>, payouts: map<Id, seq<Payment>>, now: nat,
                        q: TreasuryProposal, n: TreasuryBook)
    requires ProposalsInv(b, ballots, payouts, now) && Fresh(b, now, q, n)
    requires q.id !in ballots && q.id !in payouts && VotedFor(b.voted, q.id) == {}
    ensures ProposalsInv(n, ballots, payouts, now)
  {
    EmptyTally();
  }

  lemma OpenedPrivacy(c: Crypto, b: TreasuryBook, h: History, now: nat, q: TreasuryProposal, n: TreasuryBook)
    requires PrivacyInv(c, b, h, now) && Fresh(b, now, q, n) && q.id !in b.proposals
    requires q.id !in h.treasuryBallots && VotedFor(b.voted, q.id) == {}
    ensures PrivacyInv(c, n, h, now)
  {
    forall k | k in n.commits
      ensures CommitOk(n, k, h)
    {
      assert CommitOk(b, k, h);
    }
    forall k | k in n.voted
      ensures VotedOk(c, n, k, h)
    {
      assert VotedOk(c, b, k, h);
    }
  }

  lemma OpenedEvolves(b: TreasuryBook, now: nat, q: TreasuryProposal, n: TreasuryBook)
    requires Fresh(b, now, q, n) && q.id !in b.proposals
    ensures TreasuryEvolves(b, n)
  {
  }

  lemma Committed(c: Crypto, b: TreasuryBook, h: History, now: nat, id: Id, voter: Address, digest: Bytes32)
    requires TreasuryInv(c, b, h, now) && id in b.proposals && b.proposals[id].isPrivate
    requires now <= CommitEnd(b.proposals[id]) && (id, voter) !in b.voted
    ensures var n := b.(commits := b.commits[(id, voter) := digest]);
            TreasuryInv(c, n, Record(h, VoteCommitted(id, voter, digest, now)), now) && TreasuryEvolves(b, n)
  {
    var n := b.(commits := b.commits[(id, voter) := digest]);
    var g := Record(h, VoteCommitted(id, voter, digest, now));
    forall k | k in n.commits
      ensures CommitOk(n, k, g)
    {
      if k != (id, voter) { assert CommitOk(b, k, h); }
    }
    forall k | k in n.voted
      ensures VotedOk(c, n, k, g)
    {
      assert VotedOk(c, b, k, h);
    }
    assert ProposalsInv(n, h.treasuryBallots, h.payouts, now);
  }

  /** The book and history after a ballot is counted, before it is decided. */
  ghost function CountedBook(b: TreasuryBook, id: Id, ballot: Ballot): TreasuryBook
    requires id in b.proposals
  {
    b.(proposals := b.proposals[id := Counted(b.proposals[id], ballot.support, ballot.weight)],
       voted := b.voted + {(id, ballot.voter)},
       commits := b.commits - {(id, ballot.voter)})
  }

  ghost function CountedHistory(h: History, id: Id, ballot: Ballot): History {
    h.(treasuryBallots := Append(h.treasuryBallots, id, ballot))
  }

  lemma CountedProposals(b: TreasuryBook, ballots: map<Id, seq<Ballot>>, payouts: map<Id, seq<Payment>>,
                         now: nat, id: Id,
                         ballot: Ballot)
    requires ProposalsInv(b, ballots, payouts, now) && id in b.proposals && (id, ballot.voter) !in b.voted
    ensures ProposalsInv(CountedBook(b, id, ballot), Append(ballots, id, ballot), payouts, now)
  {
    var n, g := CountedBook(b, id, ballot), Append(ballots, id, ballot);
    forall i | i in n.proposals
      ensures && i < n.next && n.proposals[i].createdAt <= now
              && WithdrawalOk(n.proposals[i], i, Listed(g, i), VotedFor(n.voted, i), Listed(payouts, i))
    {
      assert WithdrawalOk(b.proposals[i], i, Listed(ballots, i), VotedFor(b.voted, i), Listed(payouts, i));
      CountedOne(b.proposals[i], i, Listed(ballots, i), b.voted, Listed(payouts, i), id, ballot);
    }
  }

  lemma CountedOne(p: TreasuryProposal, i: Id, bs: seq<Ballot>, voted: set<(Id, Address)>, paid: seq<Payment>, id: Id,
                   ballot: Ballot)
    requires WithdrawalOk(p, i, bs, VotedFor(voted, i), paid)
    requires i == id ==> (id, ballot.voter) !in voted
    ensures var after := VotedFor(voted + {(id, ballot.voter)}, i);
            if i == id then WithdrawalOk(Counted(p, ballot.support, ballot.weight), i, bs + [ballot], after, paid)
            else WithdrawalOk(p, i, bs, after, paid)
  {
    VotedAdded(voted, i, id, ballot.voter);
    if i == id {
      TallyCounted(p.forVotes, p.againstVotes, p.votesCast, bs, VotedFor(voted, i), ballot);
    }
  }

  /** A public proposal never had commitments, so counting a ballot on it changes none. */
  lemma CountedPublic(c: Crypto, b: TreasuryBook, h: History, now: nat, id: Id, ballot: Ballot)
    requires PrivacyInv(c, b, h, now) && id in b.proposals && !b.proposals[id].isPrivate
    ensures (id, ballot.voter) !in b.commits
    ensures PrivacyInv(c, CountedBook(b, id, ballot), CountedHistory(h, id, ballot), now)
  {
    var n, g := CountedBook(b, id, ballot), CountedHistory(h, id, ballot);
    forall k | k in b.commits
      ensures k.0 != id
    {
      assert CommitOk(b, k, h);
    }
    forall k | k in n.commits
      ensures CommitOk(n, k, g)
    {
      assert CommitOk(b, k, h);
    }
    forall k | k in n.voted
      ensures VotedOk(c, n, k, g)
    {
      if k != (id, ballot.voter) { assert VotedOk(c, b, k, h); }
    }
    forall i | i in n.proposals && n.proposals[i].isPrivate
      ensures && SupportMatches(Listed(g.treasuryBallots, i), i, g.openings)
              && (now <= CommitEnd(n.proposals[i]) ==> VotedFor(n.voted, i) == {})
    {
      VotedAdded(b.voted, i, id, ballot.voter);
    }
  }

  /** Opening a commitment: the digest matched, the window was right, and the ballot carries the
      opened support. */
  lemma CountedPrivate(c: Crypto, b: TreasuryBook, h: History, now: nat, id: Id, ballot: Ballot, salt: Bytes32)
    requires PrivacyInv(c, b, h, now) && Opens(c, b, now, id, ballot.voter, ballot.support, salt)
    requires ProposalsInv(b, h.treasuryBallots, h.payouts, now)
    ensures PrivacyInv(c, CountedBook(b, id, ballot),
                       CountedHistory(Record(h, VoteRevealed(id, ballot.voter, ballot.support, salt, now)), id,
                                      ballot), now)
  {
    assert CommitOk(b, (id, ballot.voter), h);
    CommitsAfterOpening(c, b, h, now, id, ballot, salt);
    BallotsAfterOpening(b, h, now, id, ballot, salt);
  }

  lemma BallotsAfterOpening(b: TreasuryBook, h: History, now: nat, id: Id, ballot: Ballot, salt: Bytes32)
    requires ProposalsInv(b, h.treasuryBallots, h.payouts, now) && id in b.proposals && (id, ballot.voter) !in b.voted
    requires CommitEnd(b.proposals[id]) < now
    requires forall i :: i in b.proposals && b.proposals[i].isPrivate ==>
               && SupportMatches(Listed(h.treasuryBallots, i), i, h.openings)
               && (now <= CommitEnd(b.proposals[i]) ==> VotedFor(b.voted, i) == {})
    ensures var n := CountedBook(b, id, ballot);
            var openings := h.openings[(id, ballot.voter) := Opening(ballot.support, salt, now)];
            forall i :: i in n.proposals && n.proposals[i].isPrivate ==>
              && SupportMatches(Listed(Append(h.treasuryBallots, id, ballot), i), i, openings)
              && (now <= CommitEnd(n.proposals[i]) ==> VotedFor(n.voted, i) == {})
  {
    var n := CountedBook(b, id, ballot);
    forall i | i in n.proposals && n.proposals[i].isPrivate
      ensures SupportMatches(Listed(Append(h.treasuryBallots, id, ballot), i), i,
                             h.openings[(id, ballot.voter) := Opening(ballot.support, salt, now)])
      ensures now <= CommitEnd(n.proposals[i]) ==> VotedFor(n.voted, i) == {}
    {
      assert i in b.proposals && b.proposals[i].isPrivate && CommitEnd(b.proposals[i]) == CommitEnd(n.proposals[i]);
      VotedAdded(b.voted, i, id, ballot.voter);
      SupportKept(b, h, now, i, id, ballot, salt);
    }
  }

  lemma CommitsAfterOpening(c: Crypto, b: TreasuryBook, h: History, now: nat, id: Id, ballot: Ballot, salt: Bytes32)
    requires PrivacyInv(c, b, h, now) && Opens(c, b, now, id, ballot.voter, ballot.support, salt)
    ensures var n := CountedBook(b, id, ballot);
            var g := CountedHistory(Record(h, VoteRevealed(id, ballot.voter, ballot.support, salt, now)), id, ballot);
            && (forall k :: k in n.commits ==> CommitOk(n, k, g))
            && (forall k :: k in n.voted ==> VotedOk(c, n, k, g))
  {
    var n := CountedBook(b, id, ballot);
    var g := CountedHistory(Record(h, VoteRevealed(id, ballot.voter, ballot.support, salt, now)), id, ballot);
    assert CommitOk(b, (id, ballot.voter), h);
    forall k | k in n.commits
      ensures CommitOk(n, k, g)
    {
      assert CommitOk(b, k, h);
    }
    forall k | k in n.voted
      ensures VotedOk(c, n, k, g)
    {
      if k != (id, ballot.voter) { assert VotedOk(c, b, k, h); }
    }
  }

  lemma SupportKept(b: TreasuryBook, h: History, now: nat, i: Id, id: Id, ballot: Ballot, salt: Bytes32)
    requires ProposalsInv(b, h.treasuryBallots, h.payouts, now) && i in b.proposals
    requires SupportMatches(Listed(h.treasuryBallots, i), i, h.openings)
    requires (id, ballot.voter) !in b.voted
    ensures SupportMatches(Listed(Append(h.treasuryBallots, id, ballot), i), i,
                           h.openings[(id, ballot.voter) := Opening(ballot.support, salt, now)])
  {
    var bs := Listed(h.treasuryBallots, i);
    assert WithdrawalOk(b.proposals[i], i, bs, VotedFor(b.voted, i), Listed(h.payouts, i));
    forall j | 0 <= j < |bs|
      ensures (i, bs[j].voter) in b.voted
    {
      assert bs[j].voter in VotedFor(b.voted, i);
    }
  }

  lemma CountedEvolves(b: TreasuryBook, id: Id, ballot: Ballot)
    requires id in b.proposals
    ensures TreasuryEvolves(b, CountedBook(b, id, ballot))
  {
  }

  lemma CountedTreasury(c: Crypto, b: TreasuryBook, h: History, now: nat, id: Id, ballot: Ballot, g: History)
    requires TreasuryInv(c, b, h, now) && id in b.proposals && (id, ballot.voter) !in b.voted
    requires g.treasuryBallots == Append(h.treasuryBallots, id, ballot) && g.payouts == h.payouts
    requires PrivacyInv(c, CountedBook(b, id, ballot), g, now)
    ensures TreasuryInv(c, CountedBook(b, id, ballot), g, now) && TreasuryEvolves(b, CountedBook(b, id, ballot))
  {
    CountedProposals(b, h.treasuryBallots, h.payouts, now, id, ballot);
    CountedEvolves(b, id, ballot);
    assert KnownIds(CountedBook(b, id, ballot), g.treasuryBallots, g.payouts);
  }

  /** The counted proposal is decided: it stays pending, is rejected, waits for funds, or is paid. */
  lemma Decided(c: Crypto, b: TreasuryBook, h: History, now: nat, id: Id, status: ProposalStatus,
                n: TreasuryBook, g: History)
    requires TreasuryInv(c, b, h, now) && id in b.proposals && b.proposals[id].status == Pending
    requires status == Pending || status == ApprovedPendingDisbursement || status == Rejected || status == Executed
    requires n == b.(proposals := b.proposals[id := b.proposals[id].(status := status)])
    requires g == if status == Executed
                  then h.(payouts := Append(h.payouts, id, Payment(b.proposals[id].amount,
                                                                   b.proposals[id].destination)))
                  else h
    ensures TreasuryInv(c, n, g, now) && TreasuryEvolves(b, n)
  {
    if status == Executed {
      PaidOut(c, b, h, now, id);
    } else {
      StatusMoved(c, b, h, now, id, status);
    }
  }

  // ---- shapes of the tally ----

  lemma Twice(m: map<Id, TreasuryProposal>, id: Id, p: TreasuryProposal, q: TreasuryProposal)
    ensures m[id := p][id := q] == m[id := q]
  {
  }

  /** `execute` pays or refuses; a refusal has written nothing. */
  lemma ExecuteShape(s: State, p: TreasuryProposal)
    ensures match Execute(s, p)
            case Paid(t) =>
              && t.treasury == s.treasury.(proposals := s.treasury.proposals[p.id := p.(status := Executed)])
              && t.history == s.history.(payouts := Append(s.history.payouts, p.id, Payment(p.amount, p.destination)))
              && t.now == s.now
            case Refused(t, _) => t == s
            case HostTrap => true
  {
  }

  /** The status a counted ballot leads to. */
  ghost predicate Outcome(s: State, p: TreasuryProposal, status: ProposalStatus) {
    var required := RequiredVotes(s.roster.active, p.treasuryThreshold);
    if p.forVotes >= required then status == Executed || status == ApprovedPendingDisbursement
    else if p.forVotes + MaxRemaining(s.roster.active, p.votesCast) < required then status == Rejected
    else status == Pending
  }

  ghost function Settled(h: History, p: TreasuryProposal, status: ProposalStatus): History {
    if status == Executed then h.(payouts := Append(h.payouts, p.id, Payment(p.amount, p.destination))) else h
  }

  lemma SettleShape(s: State, p: TreasuryProposal)
    requires p.status == Pending && Settle(s, p).Success?
    ensures
      var t := Settle(s, p).value;
      && p.id in t.treasury.proposals
      && var status := t.treasury.proposals[p.id].status;
      && Outcome(s, p, status)
      && t.treasury == s.treasury.(proposals := s.treasury.proposals[p.id := p.(status := status)])
      && t.history == Settled(s.history, p, status)
      && t.now == s.now
  {
    if p.forVotes >= RequiredVotes(s.roster.active, p.treasuryThreshold) {
      ApprovalShape(s, p);
    } else {
      assert p == p.(status := Pending);
    }
  }

  /** The approving branch: paid, or parked. */
  lemma ApprovalShape(s: State, p: TreasuryProposal)
    requires p.forVotes >= RequiredVotes(s.roster.active, p.treasuryThreshold) && Settle(s, p).Success?
    ensures
      var t := Settle(s, p).value;
      && p.id in t.treasury.proposals
      && var status := t.treasury.proposals[p.id].status;
      && (status == Executed || status == ApprovedPendingDisbursement)
      && t.treasury == s.treasury.(proposals := s.treasury.proposals[p.id := p.(status := status)])
      && t.history == Settled(s.history, p, status)
      && t.now == s.now
  {
    var approved := p.(status := ApprovedPendingDisbursement);
    ExecuteShape(s, approved);
    match Execute(s, approved)
    case Paid(s1) =>
      Twice(s.treasury.proposals, p.id, approved.(status := Executed), approved.(status := Executed));
      assert Settle(s, p).value == WithTreasuryProposal(s1, approved.(status := Executed));
    case Refused(s1, _) =>
      assert Settle(s, p).value == WithTreasuryProposal(s1, approved);
    case HostTrap =>
  }

  /** What a counted ballot leaves of the treasury book and the history. */
  lemma TallyShape(s: State, p: TreasuryProposal, voter: Address, support: bool)
    requires Tally(s, p, voter, support).Success?
    ensures
      var t := Tally(s, p, voter, support).value;
      var counted := Counted(p, support, VotingWeight(s, voter));
      && p.status == Pending && (p.id, voter) !in s.treasury.voted
      && p.id in t.treasury.proposals
      && var status := t.treasury.proposals[p.id].status;
      && Outcome(s, counted, status)
      && t.treasury == s.treasury.(proposals := s.treasury.proposals[p.id := counted.(status := status)],
                                   voted := s.treasury.voted + {(p.id, voter)})
      && t.history == Settled(CountedHistory(s.history, p.id, Ballot(voter, support, VotingWeight(s, voter))),
                              counted, status)
      && t.now == s.now
  {
    var weight := VotingWeight(s, voter);
    var s1, counted := BallotCast(s, p.id, voter, support, weight), Counted(p, support, weight);
    assert Tally(s, p, voter, support) == Settle(s1, counted);
    SettleShape(s1, counted);
    assert s1.history == CountedHistory(s.history, p.id, Ballot(voter, support, weight));
    assert Outcome(s, counted, Settle(s1, counted).value.treasury.proposals[p.id].status);
  }

  /** `s` is the state with the commitment, if any, already consumed; `b` is the book before. */
  lemma TallyInv(c: Crypto, s: State, b: TreasuryBook, id: Id, voter: Address, support: bool)
    requires id in b.proposals && b.proposals[id].id == id
    requires s.treasury == b.(commits := b.commits - {(id, voter)})
    requires Tally(s, b.proposals[id], voter, support).Success?
    requires var ballot := Ballot(voter, support, VotingWeight(s, voter));
             TreasuryInv(c, CountedBook(b, id, ballot), CountedHistory(s.history, id, ballot), s.now)
    ensures var t := Tally(s, b.proposals[id], voter, support).value;
            WithdrawalInv(c, t) && TreasuryEvolves(b, t.treasury)
  {
    TallyShape(s, b.proposals[id], voter, support);
    var t := Tally(s, b.proposals[id], voter, support).value;
    var ballot := Ballot(voter, support, VotingWeight(s, voter));
    DecidedAfterCount(c, b, CountedHistory(s.history, id, ballot), s.now, id, ballot, t.treasury.proposals[id].status,
                      t.treasury, t.history);
  }

  lemma DecidedAfterCount(c: Crypto, b: TreasuryBook, h: History, now: nat, id: Id, ballot: Ballot,
                          status: ProposalStatus,
                          n: TreasuryBook, g: History)
    requires id in b.proposals && b.proposals[id].id == id && b.proposals[id].status == Pending
    requires TreasuryInv(c, CountedBook(b, id, ballot), h, now)
    requires status == Pending || status == ApprovedPendingDisbursement || status == Rejected || status == Executed
    requires var counted := Counted(b.proposals[id], ballot.support, ballot.weight);
             && n == b.(commits := b.commits - {(id, ballot.voter)},
                        proposals := b.proposals[id := counted.(status := status)],
                        voted := b.voted + {(id, ballot.voter)})
             && g == Settled(h, counted, status)
    ensures TreasuryInv(c, n, g, now) && TreasuryEvolves(b, n)
  {
    var m := CountedBook(b, id, ballot);
    var counted := m.proposals[id];
    Twice(b.proposals, id, counted, counted.(status := status));
    assert n == m.(proposals := m.proposals[id := counted.(status := status)]);
    CountedEvolves(b, id, ballot);
    Decided(c, m, h, now, id, status, n, g);
    TreasuryTransitive(b, m, n);
  }

  // ---- every step ----

  ghost predicate WithdrawalStep(c: Crypto, s: State, t: State) {
    WithdrawalInv(c, t) && TreasuryEvolves(s.treasury, t.treasury)
  }

  lemma VoteIsTally(s: State, voter: Address, id: Id, support: bool)
    requires VoteStep(s, voter, id, support).Success?
    ensures id in s.treasury.proposals && !s.treasury.proposals[id].isPrivate
    ensures VoteStep(s, voter, id, support) == Tally(s, s.treasury.proposals[id], voter, support)
    ensures (s.treasury.proposals[id].id, voter) !in s.treasury.voted
  {
  }

  lemma VoteInv(c: Crypto, s: State, voter: Address, id: Id, support: bool)
    requires WithdrawalInv(c, s) && VoteStep(s, voter, id, support).Success?
    ensures WithdrawalStep(c, s, VoteStep(s, voter, id, support).value)
  {
    VoteIsTally(s, voter, id, support);
    OwnId(s.treasury, s.history, s.now, id);
    PublicCounted(c, s.treasury, s.history, s.now, id, Ballot(voter, support, VotingWeight(s, voter)));
    NothingRemoved(s.treasury.commits, (id, voter));
    TallyInv(c, s, s.treasury, id, voter, support);
  }

  lemma NothingRemoved(m: map<(Id, Address), Bytes32>, k: (Id, Address))
    requires k !in m
    ensures m - {k} == m
  {
  }

  lemma PublicCounted(c: Crypto, b: TreasuryBook, h: History, now: nat, id: Id, ballot: Ballot)
    requires TreasuryInv(c, b, h, now) && id in b.proposals && !b.proposals[id].isPrivate
             && (id, ballot.voter) !in b.voted
    ensures (id, ballot.voter) !in b.commits
    ensures TreasuryInv(c, CountedBook(b, id, ballot), CountedHistory(h, id, ballot), now)
  {
    CountedPublic(c, b, h, now, id, ballot);
    CountedTreasury(c, b, h, now, id, ballot, CountedHistory(h, id, ballot));
  }

  lemma RevealInv(c: Crypto, s: State, voter: Address, id: Id, support: bool, salt: Bytes32)
    requires WithdrawalInv(c, s) && RevealStep(c, s, voter, id, support, salt).Success?
    ensures WithdrawalStep(c, s, RevealStep(c, s, voter, id, support, salt).value)
  {
    var s1 := CommitmentOpened(s, id, voter, support, salt);
    RevealIsTally(c, s, voter, id, support, salt);
    RevealOpens(c, s, voter, id, support, salt);
    OwnId(s.treasury, s.history, s.now, id);
    PrivateCounted(c, s.treasury, s.history, s.now, id, Ballot(voter, support, VotingWeight(s1, voter)), salt);
    TallyInv(c, s1, s.treasury, id, voter, support);
  }

  lemma RevealOpens(c: Crypto, s: State, voter: Address, id: Id, support: bool, salt: Bytes32)
    requires RevealStep(c, s, voter, id, support, salt).Success?
    ensures (id, voter) !in s.treasury.voted
    ensures Opens(c, s.treasury, s.now, id, voter, support, salt)
  {
  }

  /** The commitment on record is opened by these values, inside the reveal window. */
  ghost predicate Opens(c: Crypto, b: TreasuryBook, now: nat, id: Id, voter: Address, support: bool, salt: Bytes32) {
    && id in b.proposals && b.proposals[id].isPrivate && (id, voter) in b.commits
    && b.commits[(id, voter)] == CommitmentOf(c, voter, id, support, salt)
    && CommitEnd(b.proposals[id]) < now <= CommitEnd(b.proposals[id]) + b.proposals[id].votingPeriod
  }

  lemma PrivateCounted(c: Crypto, b: TreasuryBook, h: History, now: nat, id: Id, ballot: Ballot, salt: Bytes32)
    requires TreasuryInv(c, b, h, now) && Opens(c, b, now, id, ballot.voter, ballot.support, salt)
    requires (id, ballot.voter) !in b.voted
    ensures TreasuryInv(c, CountedBook(b, id, ballot),
                        CountedHistory(Record(h, VoteRevealed(id, ballot.voter, ballot.support, salt, now)), id,
                                       ballot), now)
  {
    var revealed := Record(h, VoteRevealed(id, ballot.voter, ballot.support, salt, now));
    var g := CountedHistory(revealed, id, ballot);
    RevealedParts(h, id, ballot, salt, now);
    CountedPrivate(c, b, h, now, id, ballot, salt);
    assert PrivacyInv(c, CountedBook(b, id, ballot), g, now);
    CountedTreasury(c, b, h, now, id, ballot, g);
  }

  lemma RevealedParts(h: History, id: Id, ballot: Ballot, salt: Bytes32, now: nat)
    ensures var g := CountedHistory(Record(h, VoteRevealed(id, ballot.voter, ballot.support, salt, now)), id, ballot);
            g.treasuryBallots == Append(h.treasuryBallots, id, ballot) && g.payouts == h.payouts
  {
  }

  ghost function NewWithdrawal(s: State, who: Address, amount: nat, destination: Address, reason: string,
                               isPrivate: bool): TreasuryProposal {
    TreasuryProposal(s.treasury.next, who, amount, destination, reason, s.now, Pending, 0, 0, 0,
                     s.config.policy.votingPeriod, s.config.policy.treasuryThreshold, isPrivate)
  }

  lemma ProposeShape(s: State, who: Address, amount: int, asset: Address, destination: Address, reason: string,
                     isPrivate: bool)
    requires ProposeStep(s, who, amount, asset, destination, reason, isPrivate).Success?
    ensures
      var t := ProposeStep(s, who, amount, asset, destination, reason, isPrivate).value;
      && amount > 0 && s.treasury.next < U32_MAX
      && t.history == s.history && t.now == s.now
      && var q := NewWithdrawal(s, who, amount, destination, reason, isPrivate);
      t.treasury == s.treasury.(next := s.treasury.next + 1, proposals := s.treasury.proposals[q.id := q],
                                assets := if asset != s.config.token then s.treasury.assets[q.id := asset]
                                          else s.treasury.assets)
  {
  }

  lemma ProposeInv(c: Crypto, s: State, who: Address, amount: int, asset: Address, destination: Address, reason: string,
                   isPrivate: bool)
    requires WithdrawalInv(c, s) && ProposeStep(s, who, amount, asset, destination, reason, isPrivate).Success?
    ensures WithdrawalStep(c, s, ProposeStep(s, who, amount, asset, destination, reason, isPrivate).value)
  {
    ProposeShape(s, who, amount, asset, destination, reason, isPrivate);
    OpenedProposal(c, s.treasury, s.history, s.now, NewWithdrawal(s, who, amount, destination, reason, isPrivate),
                   ProposeStep(s, who, amount, asset, destination, reason, isPrivate).value.treasury);
  }

  lemma CommitInv(c: Crypto, s: State, voter: Address, id: Id, digest: Bytes32)
    requires WithdrawalInv(c, s) && CommitStep(s, voter, id, digest).Success?
    ensures WithdrawalStep(c, s, CommitStep(s, voter, id, digest).value)
  {
    Committed(c, s.treasury, s.history, s.now, id, voter, digest);
  }

  lemma ExecuteApprovedShape(s: State, id: Id)
    requires ExecuteApprovedStep(s, id).Success? && s.treasury.proposals[id].id == id
    ensures
      var t := ExecuteApprovedStep(s, id).value;
      var p := s.treasury.proposals[id];
      && p.status == ApprovedPendingDisbursement
      && t.treasury == s.treasury.(proposals := s.treasury.proposals[id := p.(status := Executed)])
      && t.history == s.history.(payouts := Append(s.history.payouts, id, Payment(p.amount, p.destination)))
      && t.now == s.now
  {
    var p := s.treasury.proposals[id];
    ExecuteShape(s, p);
    Twice(s.treasury.proposals, id, p.(status := Executed), p.(status := Executed));
  }

  lemma ExecuteApprovedInv(c: Crypto, s: State, id: Id)
    requires WithdrawalInv(c, s) && ExecuteApprovedStep(s, id).Success?
    ensures WithdrawalStep(c, s, ExecuteApprovedStep(s, id).value)
  {
    OwnId(s.treasury, s.history, s.now, id);
    ExecuteApprovedShape(s, id);
    PaidOut(c, s.treasury, s.history, s.now, id);
  }

  lemma OwnId(b: TreasuryBook, h: History, now: nat, id: Id)
    requires ProposalsInv(b, h.treasuryBallots, h.payouts, now) && id in b.proposals
    ensures b.proposals[id].id == id
  {
  }

  lemma CancelInv(c: Crypto, s: State, who: Address, id: Id)
    requires WithdrawalInv(c, s) && CancelStep(s, who, id).Success?
    ensures WithdrawalStep(c, s, CancelStep(s, who, id).value)
  {
    OwnId(s.treasury, s.history, s.now, id);
    StatusMoved(c, s.treasury, s.history, s.now, id, Cancelled);
  }

  lemma ExpireInv(c: Crypto, s: State, id: Id)
    requires WithdrawalInv(c, s) && ExpireStep(s, id).Success?
    ensures WithdrawalStep(c, s, ExpireStep(s, id).value)
  {
    OwnId(s.treasury, s.history, s.now, id);
    StatusMoved(c, s.treasury, s.history, s.now, id, Expired);
  }

  lemma StepTreasuryInv(c: Crypto, s: State, a: Action)
    requires TreasuryAction(a)
    requires WithdrawalInv(c, s) && AttemptTreasury(c, s, a).Success?
    ensures WithdrawalStep(c, s, AttemptTreasury(c, s, a).value)
  {
    match a
    case Propose(who, amount, asset, destination, reason, isPrivate) =>
      ProposeInv(c, s, who, amount, asset, destination, reason, isPrivate);
    case VoteTreasury(who, id, support) => VoteInv(c, s, who, id, support);
    case Commit(who, id, digest) => CommitInv(c, s, who, id, digest);
    case RevealVote(who, id, support, salt) => RevealInv(c, s, who, id, support, salt);
    case ExecuteTreasury(id) => ExecuteApprovedInv(c, s, id);
    case CancelTreasury(who, id) => CancelInv(c, s, who, id);
    case ExpireTreasury(id) => ExpireInv(c, s, id);
  }

  /** Time only closes commit windows. */
  lemma TimePasses(c: Crypto, b: TreasuryBook, h: History, g: History, now: nat, later: nat)
    requires TreasuryInv(c, b, h, now) && now <= later
    requires g.payouts == h.payouts && g.treasuryBallots == h.treasuryBallots && g.commits == h.commits
             && g.openings == h.openings
    ensures TreasuryInv(c, b, g, later)
  {
    PrivacyKept(c, b, h, g, now);
    assert ProposalsInv(b, g.treasuryBallots, g.payouts, later);
    forall id | id in b.proposals && b.proposals[id].isPrivate && later <= CommitEnd(b.proposals[id])
      ensures VotedFor(b.voted, id) == {}
    {
      assert now <= CommitEnd(b.proposals[id]);
    }
  }

  lemma OtherFrame(c: Crypto, s: State, a: Action)
    requires !TreasuryAction(a)
    ensures SameTreasury(s, Step(c, s, a))
  {
    if MemberAction(a) {
      MemberFrame(c, s, a);
    } else if ProposalAction(a) {
      ProposalFrame(c, s, a);
    } else if DebtAction(a) {
      DebtFrame(c, s, a);
    } else {
      EnvironmentFrame(c, s, a);
    }
  }

  lemma StepWithdrawal(c: Crypto, s: State, a: Action)
    requires WithdrawalInv(c, s)
    ensures WithdrawalStep(c, s, Step(c, s, a))
  {
    TreasuryReflexive(s.treasury);
    if TreasuryAction(a) {
      if Attempt(c, s, a).Success? {
        StepTreasuryInv(c, s, a);
      }
    } else {
      OtherFrame(c, s, a);
      TimePasses(c, s.treasury, s.history, Step(c, s, a).history, s.now, Step(c, s, a).now);
    }
  }

  lemma InitialWithdrawal(c: Crypto, s: State)
    requires Initial(s)
    ensures WithdrawalInv(c, s)
  {
  }

  lemma {:induction false} RunWithdrawal(c: Crypto, s: State, actions: seq<Action>)
    requires WithdrawalInv(c, s)
    ensures WithdrawalStep(c, s, Run(c, s, actions))
    decreases |actions|
  {
    if actions == [] {
      TreasuryReflexive(s.treasury);
    } else {
      var s1 := Step(c, s, actions[0]);
      StepWithdrawal(c, s, actions[0]);
      RunWithdrawal(c, s1, actions[1..]);
      TreasuryTransitive(s.treasury, s1.treasury, Run(c, s1, actions[1..]).treasury);
    }
  }
}
