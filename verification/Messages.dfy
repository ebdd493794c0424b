/** Headers, votes and certificates of the certificate layer, and what makes a certificate verify. */
module Messages {
  import opened Collections
  import opened Committees
  import opened Dags

  datatype Error =
    | InvalidHeaderId
    | UnknownAuthority(name: Key)
    | AuthorityReuse(name: Key)
    | MalformedHeader(id: nat)
    | HeaderRequiresQuorum(id: nat)
    | CertificateRequiresQuorum
    | UnexpectedVote(id: nat)
    | TooOld(id: nat, round: Round)

  datatype Result = Ok | Err(error: Error) | Panic

  /** A batch by its digest, and the worker that holds it. */
  datatype Batch = Batch(digest: nat, worker: nat)

  /** `parents` is the ordered set of parent digests, `payload` the ordered map from batches to workers. */
  datatype Header = Header(author: Key, round: Round, payload: seq<Batch>, parents: seq<Digest>, id: nat) {
    /** What the commit engine sees of a certificate over this header. */
    function Vertex(): Dags.Certificate {
      Dags.Certificate(author, round, id, parents)
    }
  }

  /** A certificate lists who voted. Signatures are ideal: a listed honest authority did vote (see `Protocol`). */
  datatype Certified = Certified(header: Header, votes: seq<Key>) {
    function Digest(): Digest {
      header.Vertex().Digest()
    }
  }

  datatype Vote = Vote(id: nat, round: Round, origin: Key, author: Key)

  function VoteFor(h: Header, author: Key): Vote {
    Vote(h.id, h.round, h.author, author)
  }

  /** The header hash: any injective function of the hashed fields. */
  type Hash = (Key, Round, seq<Batch>, seq<Digest>) -> nat

  ghost predicate Injective(hash: Hash) {
    forall a, r, p, q, a', r', p', q' {:trigger hash(a, r, p, q), hash(a', r', p', q')} ::
      hash(a, r, p, q) == hash(a', r', p', q') ==> a == a' && r == r' && p == p' && q == q'
  }

  function GenesisHeader(k: Key): Header {
    Header(k, 0, [], [], GENESIS_ID)
  }

  predicate IsGenesisDigest(cm: Committee, d: Digest) {
    d.id == GENESIS_ID && d.round == 0 && d.origin in cm.keys
  }

  /** Certificates compare by identifier, round and author. */
  predicate IsGenesis(cm: Committee, c: Certified) {
    IsGenesisDigest(cm, c.Digest())
  }

  function VerifyHeader(cm: Committee, hash: Hash, h: Header): Result {
    if hash(h.author, h.round, h.payload, h.parents) != h.id then Err(InvalidHeaderId)
    else if cm.Stake(h.author) == 0 then Err(UnknownAuthority(h.author))
    else if exists b :: b in h.payload && !cm.HasWorker(h.author, b.worker) then Err(MalformedHeader(h.id))
    else Ok
  }

  /** A header verifies exactly if its identifier is the hash, its author has stake, and its author has every worker named. */
  lemma HeaderVerifies(cm: Committee, hash: Hash, h: Header)
    ensures VerifyHeader(cm, hash, h) ==
            if h.id != hash(h.author, h.round, h.payload, h.parents) then Err(InvalidHeaderId)
            else if h.author !in cm.stakes || cm.stakes[h.author] == 0 then Err(UnknownAuthority(h.author))
            else if forall b :: b in h.payload ==> h.author in cm.workers && b.worker in cm.workers[h.author] then Ok
            else Err(MalformedHeader(h.id))
  {
  }

  /** The votes of a certificate, checked one by one: nobody twice, everybody with a right to vote. */
  function CheckVotes(cm: Committee, votes: seq<Key>, used: set<Key>, weight: nat): Result {
    if votes == [] then if cm.QuorumThreshold() <= weight then Ok else Err(CertificateRequiresQuorum)
    else if votes[0] in used then Err(AuthorityReuse(votes[0]))
    else if cm.Stake(votes[0]) == 0 then Err(UnknownAuthority(votes[0]))
    else CheckVotes(cm, votes[1..], used + {votes[0]}, weight + cm.Stake(votes[0]))
  }

  function Verify(cm: Committee, hash: Hash, c: Certified): Result {
    if IsGenesis(cm, c) then Ok
    else if !VerifyHeader(cm, hash, c.header).Ok? then VerifyHeader(cm, hash, c.header)
    else CheckVotes(cm, c.votes, {}, 0)
  }

  ghost function Voters(votes: seq<Key>): set<Key> {
    set k | k in votes
  }

  ghost predicate QuorumOfVotes(cm: Committee, votes: seq<Key>) {
    && NoRepeats(votes)
    && (forall k :: k in votes ==> 0 < cm.Stake(k))
    && cm.Weight(Voters(votes)) >= cm.QuorumThreshold()
  }

  lemma {:induction false} CheckVotesExact(cm: Committee, votes: seq<Key>, used: set<Key>, weight: nat)
    requires cm.Valid() && weight == cm.Weight(used)
    ensures CheckVotes(cm, votes, used, weight).Ok? <==>
            && NoRepeats(votes)
            && (forall k :: k in votes ==> k !in used && 0 < cm.Stake(k))
            && cm.Weight(used + Voters(votes)) >= cm.QuorumThreshold()
    decreases |votes|
  {
    if votes == [] {
      assert used + Voters(votes) == used;
    } else {
      var rest := votes[1..];
      assert forall k :: k in votes <==> k == votes[0] || k in rest;
      if votes[0] !in used {
        cm.WeightInsert(used, votes[0]);
        CheckVotesExact(cm, rest, used + {votes[0]}, weight + cm.Stake(votes[0]));
        assert used + {votes[0]} + Voters(rest) == used + Voters(votes);
        assert forall i :: 0 <= i < |rest| ==> rest[i] == votes[i + 1];
        if NoRepeats(votes) {
          assert votes[0] !in rest;
        }
      }
    }
  }

  /** A certificate verifies exactly if it is genesis, or over a well-formed header with a quorum of distinct votes. */
  lemma VerifyExact(cm: Committee, hash: Hash, c: Certified)
    requires cm.Valid()
    ensures Verify(cm, hash, c).Ok? <==>
            IsGenesis(cm, c) || (VerifyHeader(cm, hash, c.header).Ok? && QuorumOfVotes(cm, c.votes))
  {
    hide CheckVotes, NoRepeats, Committee.Weight, VerifyHeader;
    cm.WeightEmpty({});
    CheckVotesExact(cm, c.votes, {}, 0);
    assert {} + Voters(c.votes) == Voters(c.votes);
  }

  /** `Certificate::verify` as the code runs it. */
  method VerifyCertificate(cm: Committee, hash: Hash, c: Certified) returns (r: Result)
    requires cm.Valid()
    ensures r == Verify(cm, hash, c)
  {
    if IsGenesis(cm, c) {
      return Ok;
    }
    r := VerifyHeader(cm, hash, c.header);
    if !r.Ok? {
      return;
    }
    var weight := 0;
    var used: set<Key> := {};
    var i := 0;
    while i < |c.votes|
      invariant 0 <= i <= |c.votes|
      invariant CheckVotes(cm, c.votes[i..], used, weight) == CheckVotes(cm, c.votes, {}, 0)
    {
      var name := c.votes[i];
      assert c.votes[i..][0] == name && c.votes[i..][1..] == c.votes[i + 1..];
      if name in used {
        return Err(AuthorityReuse(name));
      }
      var votingRights := cm.Stake(name);
      if votingRights == 0 {
        return Err(UnknownAuthority(name));
      }
      used := used + {name};
      weight := weight + votingRights;
      i := i + 1;
    }
    assert c.votes[i..] == [];
    r := if cm.QuorumThreshold() <= weight then Ok else Err(CertificateRequiresQuorum);
  }
}
