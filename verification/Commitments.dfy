/** What a commitment binds its voter to (`privacy.rs`). A hash of unbounded input cannot be
    injective, so every claim names the two concrete preimages that would have to collide. */
module Commitments {
  import opened Types
  import opened Storage
  import opened TreasuryOps
  import opened Withdrawals

  /** Two different inputs with the same digest: a broken hash. */
  predicate Collide(c: Crypto, x: seq<byte>, y: seq<byte>) {
    x != y && c.sha256(x) == c.sha256(y)
  }

  ghost predicate Injective(xdr: Address -> seq<byte>) {
    forall v, w :: xdr(v) == xdr(w) ==> v == w
  }

  /** The four bytes of an id, read back. */
  function FromBigEndian(b: seq<byte>): nat
    requires |b| == 4
  {
    (b[0] as nat) * 0x100_0000 + (b[1] as nat) * 0x1_0000 + (b[2] as nat) * 0x100 + (b[3] as nat)
  }

  lemma BigEndianRoundTrip(id: Id)
    ensures FromBigEndian(BigEndian(id)) == id
  {
    assert id / 0x1_0000 == id / 0x100_0000 * 0x100 + id / 0x1_0000 % 0x100;
    assert id / 0x100 == id / 0x1_0000 * 0x100 + id / 0x100 % 0x100;
  }

  /** Equal concatenations with suffixes of one length split into equal parts. */
  lemma SplitAtSuffix(a: seq<byte>, s: seq<byte>, b: seq<byte>, t: seq<byte>)
    requires |s| == |t| && a + s == b + t
    ensures a == b && s == t
  {
    assert |a| == |b|;
    assert a == (a + s)[..|a|] && b == (b + t)[..|b|];
    assert s == (a + s)[|a|..] && t == (b + t)[|b|..];
  }

  function SupportByte(support: bool): byte { if support then 1 else 0 }

  /** The preimage decodes: its 37-byte suffix has a fixed width, so two preimages are equal exactly
      when the encoded voters, the ids, the supports and the salts are, whatever encoding the host
      uses for addresses and however long its results are. */
  lemma PreimageDecodes(xdr: Address -> seq<byte>, v: Address, i: Id, a: bool, s: Bytes32,
                        w: Address, j: Id, b: bool, t: Bytes32)
    ensures Preimage(xdr, v, i, a, s) == Preimage(xdr, w, j, b, t)
            <==> xdr(v) == xdr(w) && i == j && a == b && s == t
  {
    if Preimage(xdr, v, i, a, s) == Preimage(xdr, w, j, b, t) {
      SplitAtSuffix(xdr(v) + BigEndian(i) + [SupportByte(a)], s, xdr(w) + BigEndian(j) + [SupportByte(b)], t);
      SplitAtSuffix(xdr(v) + BigEndian(i), [SupportByte(a)], xdr(w) + BigEndian(j), [SupportByte(b)]);
      SplitAtSuffix(xdr(v), BigEndian(i), xdr(w), BigEndian(j));
      BigEndianRoundTrip(i);
      BigEndianRoundTrip(j);
      assert [SupportByte(a)][0] == [SupportByte(b)][0];
    }
  }

  lemma PreimageInjective(xdr: Address -> seq<byte>, v: Address, i: Id, a: bool, s: Bytes32,
                          w: Address, j: Id, b: bool, t: Bytes32)
    requires Injective(xdr) && Preimage(xdr, v, i, a, s) == Preimage(xdr, w, j, b, t)
    ensures v == w && i == j && a == b && s == t
  {
    PreimageDecodes(xdr, v, i, a, s, w, j, b, t);
  }

  /** One digest commits to one voter, proposal, support and salt, unless those two preimages collide. */
  lemma DigestBinds(c: Crypto, v: Address, i: Id, a: bool, s: Bytes32, w: Address, j: Id, b: bool, t: Bytes32)
    requires Injective(c.xdr) && CommitmentOf(c, v, i, a, s) == CommitmentOf(c, w, j, b, t)
    ensures (v == w && i == j && a == b && s == t)
            || Collide(c, Preimage(c.xdr, v, i, a, s), Preimage(c.xdr, w, j, b, t))
  {
    PreimageDecodes(c.xdr, v, i, a, s, w, j, b, t);
  }

  /** In every reachable state, a counted private vote opened the digest its voter had committed in
      time. Had that digest been computed from any other voter, proposal, support or salt, the hash
      would be broken on the two inputs named here: the vote counted is the vote committed. */
  lemma CountedAsCommitted(c: Crypto, s: State, id: Id, voter: Address, w: Address, j: Id, support: bool, salt: Bytes32)
    requires WithdrawalInv(c, s) && Injective(c.xdr)
    requires id in s.treasury.proposals && s.treasury.proposals[id].isPrivate && (id, voter) in s.treasury.voted
    requires (id, voter) in s.history.commits
    requires s.history.commits[(id, voter)].digest == CommitmentOf(c, w, j, support, salt)
    ensures
      && (id, voter) in s.history.openings
      && var o := s.history.openings[(id, voter)];
         || (w == voter && j == id && support == o.support && salt == o.salt)
         || Collide(c, Preimage(c.xdr, w, j, support, salt), Preimage(c.xdr, voter, id, o.support, o.salt))
  {
    assert VotedOk(c, s.treasury, (id, voter), s.history);
    var o := s.history.openings[(id, voter)];
    DigestBinds(c, w, j, support, salt, voter, id, o.support, o.salt);
  }

  /** A commitment copied from another member, or from another proposal, cannot be opened. */
  lemma CopiedCommitmentUseless(c: Crypto, s: State, voter: Address, id: Id, support: bool, salt: Bytes32,
                                w: Address, j: Id, b: bool, t: Bytes32)
    requires Injective(c.xdr) && (w != voter || j != id)
    requires (id, voter) in s.treasury.commits && s.treasury.commits[(id, voter)] == CommitmentOf(c, w, j, b, t)
    requires !Collide(c, Preimage(c.xdr, w, j, b, t), Preimage(c.xdr, voter, id, support, salt))
    ensures RevealStep(c, s, voter, id, support, salt).Failure?
  {
    if CommitmentOf(c, w, j, b, t) == CommitmentOf(c, voter, id, support, salt) {
      DigestBinds(c, w, j, b, t, voter, id, support, salt);
    }
  }
}
