/** The certificate layer meets the commit engine: what honest cores send forms a DAG the engine's theorems apply to. */
module Composition {
  import opened Collections
  import opened Committees
  import opened Dags
  import opened Messages
  import opened Handlers
  import opened Delivery
  import opened Protocol
  import opened CoreSafety
  import opened Systems
  import opened Uniqueness
  import E = Engine

  /** The deliveries of a core to its commit engine. */
  function Deliveries(sent: seq<Certified>): seq<Certificate> {
    if sent == [] then [] else Deliveries(sent[..|sent| - 1]) + [sent[|sent| - 1].header.Vertex()]
  }

  /** Every certificate any honest core has sent to its engine, and genesis. */
  ghost function Dag(cm: Committee, cores: map<Key, Core>): set<Certificate> {
    Genesis(cm) + set k, c | k in cores && c in cores[k].log.sent :: c.header.Vertex()
  }

  // ----- Certified headers -----

  ghost predicate Certificated(cm: Committee, cores: map<Key, Core>, d: Digest) {
    IsGenesisDigest(cm, d) || exists k, c :: k in cores && c in cores[k].log.sent && c.Digest() == d
  }

  lemma DigestCertificated(p: Setup, hash: Hash, cores: map<Key, Core>, k: Key, h: Header, d: Digest)
    requires Safe(p, hash, cores) && k in cores && VoteBacked(Signed(cores), k, h) && d in h.parents
    ensures Certificated(p.committee, cores, d)
  {
    hide Safe, Signed, VoteBacked, SentSound, VotesOnce, ParentsFirst, SoundHeader, Grounded;
    HonestVoteIsVoted(p, hash, cores, k, h);
    if !IsGenesisDigest(p.committee, d) {
      var c := cores[k].store.certificates[d];
      assert c in cores[k].log.sent && c.Digest() == d;
    }
  }

  /** No certificate that compares equal to genesis, and so is not checked, came with parents of its own. */
  ghost predicate PlainGenesis(cm: Committee, cores: map<Key, Core>) {
    forall k, c :: k in cores && c in cores[k].log.sent && IsGenesis(cm, c) ==> c.header.parents == []
  }

  /** The certificates sent for an author and round look the same to the engines. */
  ghost predicate SentUnique(cores: map<Key, Core>) {
    forall j, k, c, d ::
      j in cores && k in cores && c in cores[j].log.sent && d in cores[k].log.sent
      && InSlot(c.header, d.header.author, d.header.round) ==>
      c.header.Vertex() == d.header.Vertex()
  }

  lemma SentAgree(cores: map<Key, Core>, j: Key, c: Certified, k: Key, d: Certified)
    requires SentUnique(cores) && j in cores && k in cores && c in cores[j].log.sent && d in cores[k].log.sent
    requires InSlot(c.header, d.header.author, d.header.round)
    ensures c.header.Vertex() == d.header.Vertex()
  {
  }

  ghost predicate Unique(p: Setup, hash: Hash, cores: map<Key, Core>) {
    Safe(p, hash, cores) && SentUnique(cores)
  }

  lemma SentIsBacked(p: Setup, hash: Hash, cores: map<Key, Core>, k: Key, c: Certified)
    requires Safe(p, hash, cores) && k in cores && c in cores[k].log.sent && !IsGenesis(p.committee, c)
    ensures Backed(p.committee, hash, Signed(cores), c) && Ordered(p.committee, cores[k])
  {
    hide WorldSound, Setup.Valid, VotedSound, WaitingSound, SuspendedSound, VotesSound, Recorded, OwnSound, Remembers,
      Backed, ParentsFirst, StoreIsSent, Signed, IsGenesis;
    assert Inv(p.Node(k), hash, Signed(cores), cores[k]);
    assert Acknowledged(p.committee, hash, Signed(cores), c);
  }

  lemma CertifiedIsGrounded(p: Setup, hash: Hash, cores: map<Key, Core>, c: Certified) returns (k: Key)
    requires Safe(p, hash, cores) && Backed(p.committee, hash, Signed(cores), c)
    ensures k in cores && VoteBacked(Signed(cores), k, c.header)
    ensures Grounded(p.committee, c.header) && NoRepeats(c.header.parents) && VerifyHeader(p.committee, hash, c.header).Ok?
    ensures 0 < c.header.round && 0 < p.committee.Stake(c.header.author)
  {
    hide Setup.Valid, Inv, VotesOnce, Ordered, SentSound, VerifyHeader, QuorumOfVotes, NoRepeats, WorldSound, ParentsAmong;
    k := HonestVoter(p.committee, hash, Signed(cores), c.votes);
    assert k in Signed(cores).votes;
    HonestVoteIsVoted(p, hash, cores, k, c.header);
    assert SoundHeader(p.committee, hash, Signed(cores), c.header);
    HeaderStake(p.committee, hash, c.header);
    assert c.header.parents[0] in c.header.parents;
  }

  /** Two parents of one certified header with one author are one parent. */
  lemma DistinctOrigins(p: Setup, hash: Hash, cores: map<Key, Core>, c: Certified, d: Digest, e: Digest)
    requires Unique(p, hash, cores) && Backed(p.committee, hash, Signed(cores), c)
    requires d in c.header.parents && e in c.header.parents && d.origin == e.origin
    ensures d == e
  {
    hide Safe, Signed, Backed, VoteBacked, VerifyHeader, NoRepeats;
    var k := CertifiedIsGrounded(p, hash, cores, c);
    DigestCertificated(p, hash, cores, k, c.header, d);
    DigestCertificated(p, hash, cores, k, c.header, e);
    SlotDigest(p, hash, cores, d, e);
  }

  lemma SlotDigest(p: Setup, hash: Hash, cores: map<Key, Core>, d: Digest, e: Digest)
    requires Unique(p, hash, cores) && Certificated(p.committee, cores, d) && Certificated(p.committee, cores, e)
    requires d.origin == e.origin && d.round == e.round
    ensures d == e
  {
    hide Safe, SentUnique, Signed, Backed, VoteBacked, VerifyHeader, NoRepeats, Grounded;
    if !IsGenesisDigest(p.committee, d) {
      var k, c :| k in cores && c in cores[k].log.sent && c.Digest() == d;
      SentIsBacked(p, hash, cores, k, c);
      var _ := CertifiedIsGrounded(p, hash, cores, c);
      if !IsGenesisDigest(p.committee, e) {
        var k', c' :| k' in cores && c' in cores[k'].log.sent && c'.Digest() == e;
        SentIsBacked(p, hash, cores, k', c');
        SentAgree(cores, k, c, k', c');
      }
    } else if !IsGenesisDigest(p.committee, e) {
      var k', c' :| k' in cores && c' in cores[k'].log.sent && c'.Digest() == e;
      SentIsBacked(p, hash, cores, k', c');
      var _ := CertifiedIsGrounded(p, hash, cores, c');
    }
  }

  /** Counting stake parent by parent gives the stake of the parents' authors when no author comes twice. */
  lemma {:induction false} StakeOfDistinct(cm: Committee, ds: seq<Digest>)
    requires cm.Valid() && NoRepeats(ds)
    requires forall d, e :: d in ds && e in ds && d.origin == e.origin ==> d == e
    ensures StakeOf(cm, ds) == cm.Weight(Sources(ds))
  {
    if ds == [] {
      cm.WeightEmpty(Sources(ds));
    } else {
      var rest := ds[1..];
      assert forall d :: d in ds <==> d == ds[0] || d in rest;
      assert forall i :: 0 <= i < |rest| ==> rest[i] == ds[i + 1];
      StakeOfDistinct(cm, rest);
      assert ds[0].origin !in Sources(rest);
      assert Sources(ds) == Sources(rest) + {ds[0].origin};
      cm.WeightInsert(Sources(rest), ds[0].origin);
    }
  }

  /**
   * Every certified header has parents by distinct authors, all of the round below and together holding a quorum,
   * each of them genesis or itself certified: some honest voter checked them.
   */
  lemma CertifiedParents(p: Setup, hash: Hash, cores: map<Key, Core>, c: Certified)
    requires Unique(p, hash, cores) && Backed(p.committee, hash, Signed(cores), c)
    ensures forall d :: d in c.header.parents ==> d.round + 1 == c.header.round && Certificated(p.committee, cores, d)
    ensures forall d, e :: d in c.header.parents && e in c.header.parents && d.origin == e.origin ==> d == e
    ensures p.committee.Weight(Sources(c.header.parents)) >= p.committee.QuorumThreshold()
  {
    var k := CertifiedIsGrounded(p, hash, cores, c);
    assert p.committee.Valid();
    hide Safe, Signed, Backed, VoteBacked, VerifyHeader, NoRepeats, Certificated, Committee.Weight, Committee.QuorumThreshold;
    forall d | d in c.header.parents
      ensures Certificated(p.committee, cores, d)
    {
      DigestCertificated(p, hash, cores, k, c.header, d);
    }
    forall d, e | d in c.header.parents && e in c.header.parents && d.origin == e.origin
      ensures d == e
    {
      DistinctOrigins(p, hash, cores, c, d, e);
    }
    StakeOfDistinct(p.committee, c.header.parents);
  }

  // ----- The DAG of the engine -----

  lemma InDag(p: Setup, hash: Hash, cores: map<Key, Core>, x: Certificate)
    returns (k: Key, c: Certified)
    requires Safe(p, hash, cores) && PlainGenesis(p.committee, cores)
    requires x in Dag(p.committee, cores) && x !in Genesis(p.committee)
    ensures k in cores && c in cores[k].log.sent && c.header.Vertex() == x
    ensures Backed(p.committee, hash, Signed(cores), c)
    ensures 0 < x.round && 0 < p.committee.Stake(x.author)
  {
    hide Safe, Signed, Backed, VerifyHeader, NoRepeats, Grounded;
    k, c :| k in cores && c in cores[k].log.sent && c.header.Vertex() == x;
    assert IsGenesis(p.committee, c) ==> x == GenesisOf(c.header.author);
    SentIsBacked(p, hash, cores, k, c);
    var _ := CertifiedIsGrounded(p, hash, cores, c);
  }

  lemma DagSlots(p: Setup, hash: Hash, cores: map<Key, Core>, x: Certificate, y: Certificate)
    requires Unique(p, hash, cores) && PlainGenesis(p.committee, cores)
    requires x in Dag(p.committee, cores) && y in Dag(p.committee, cores) && SameSlot(x, y)
    ensures x == y
  {
    hide Safe, SentUnique, Signed, Backed, Dag;
    if x !in Genesis(p.committee) {
      var k, c := InDag(p, hash, cores, x);
      if y !in Genesis(p.committee) {
        var k', c' := InDag(p, hash, cores, y);
        SentAgree(cores, k, c, k', c');
      }
    } else if y !in Genesis(p.committee) {
      var k', c' := InDag(p, hash, cores, y);
    }
  }

  lemma CertificatedInDag(p: Setup, cores: map<Key, Core>, d: Digest)
    requires Certificated(p.committee, cores, d)
    ensures exists y :: y in Dag(p.committee, cores) && y.Digest() == d
  {
    if IsGenesisDigest(p.committee, d) {
      var y := GenesisOf(d.origin);
      assert y in Dag(p.committee, cores) && y.Digest() == d;
    } else {
      var k, c :| k in cores && c in cores[k].log.sent && c.Digest() == d;
      var y := c.header.Vertex();
      assert y in Dag(p.committee, cores) && y.Digest() == d;
    }
  }

  lemma DagParents(p: Setup, hash: Hash, cores: map<Key, Core>, x: Certificate)
    requires Unique(p, hash, cores) && PlainGenesis(p.committee, cores)
    requires x in Dag(p.committee, cores) && x !in Genesis(p.committee)
    ensures QuorumParents(p.committee, Dag(p.committee, cores), x)
  {
    var cm, u := p.committee, Dag(p.committee, cores);
    hide Safe, Signed, Backed, Dag, Certificated, Committee.Weight, Committee.QuorumThreshold;
    var k, c := InDag(p, hash, cores, x);
    CertifiedParents(p, hash, cores, c);
    StakeInCommittee(p, hash, cores, x.author);
    forall d | d in x.parents
      ensures d.round + 1 == x.round && exists y :: y in u && y.Digest() == d
    {
      CertificatedInDag(p, cores, d);
    }
    OriginsAre(x.parents);
    hide Genesis;
  }

  lemma OriginsAre(ds: seq<Digest>)
    ensures (set d | d in ds :: d.origin) == Sources(ds)
  {
  }

  lemma StakeInCommittee(p: Setup, hash: Hash, cores: map<Key, Core>, k: Key)
    requires Safe(p, hash, cores) && 0 < p.committee.Stake(k)
    ensures k in p.committee.keys
  {
    assert k in p.committee.stakes.Keys;
  }

  lemma DagIsGood(p: Setup, hash: Hash, cores: map<Key, Core>)
    requires Unique(p, hash, cores) && PlainGenesis(p.committee, cores)
    ensures GoodDag(p.committee, Dag(p.committee, cores))
  {
    var cm, u := p.committee, Dag(p.committee, cores);
    assert cm.Valid() && Genesis(cm) <= u;
    hide Safe, Dag, QuorumParents, PlainGenesis;
    forall x, y | x in u && y in u && SameSlot(x, y)
      ensures x == y
    {
      DagSlots(p, hash, cores, x, y);
    }
    forall x | x in u && x !in Genesis(cm)
      ensures QuorumParents(cm, u, x)
    {
      DagParents(p, hash, cores, x);
    }
  }

  lemma {:induction false} DeliveriesAre(sent: seq<Certified>, x: Certificate)
    ensures x in Deliveries(sent) <==> exists c :: c in sent && c.header.Vertex() == x
    decreases |sent|
  {
    if sent != [] {
      var m := |sent| - 1;
      DeliveriesAre(sent[..m], x);
      assert forall c :: c in sent <==> c in sent[..m] || c == sent[m];
    }
  }

  /** The engine is given the certificates sent, one for one and in that order. */
  lemma {:induction false} DeliveriesInOrder(sent: seq<Certified>)
    ensures |Deliveries(sent)| == |sent|
    ensures forall i :: 0 <= i < |sent| ==> Deliveries(sent)[i] == sent[i].header.Vertex()
    decreases |sent|
  {
    if sent != [] {
      DeliveriesInOrder(sent[..|sent| - 1]);
    }
  }

  lemma {:induction false} DeliveriesCausal(cm: Committee, u: set<Certificate>, sent: seq<Certified>)
    requires GoodDag(cm, u) && ParentsFirst(cm, sent)
    requires forall c :: c in sent ==> c.header.Vertex() in u
    ensures E.Causal(cm, u, Deliveries(sent))
    decreases |sent|
  {
    if sent != [] {
      var m := |sent| - 1;
      var before, x := Deliveries(sent[..m]), sent[m].header.Vertex();
      hide GoodDag;
      DeliveriesCausal(cm, u, sent[..m]);
      assert Deliveries(sent)[..|before|] == before;
      forall y | y in u && Edge(x, y)
        ensures y in E.Delivered(cm, before)
      {
        ParentDelivered(cm, u, sent[..m], sent[m], y);
      }
    }
  }

  lemma ParentDelivered(cm: Committee, u: set<Certificate>, sent: seq<Certified>, c: Certified, y: Certificate)
    requires GoodDag(cm, u) && ParentsAmong(cm, c.header.parents, Digests(sent))
    requires forall x :: x in sent ==> x.header.Vertex() in u
    requires y in u && Edge(c.header.Vertex(), y)
    ensures y in E.Delivered(cm, Deliveries(sent))
  {
    GoodUnique(cm, u);
    hide QuorumParents, Deliveries;
    var d := y.Digest();
    if IsGenesisDigest(cm, d) {
      assert SameSlot(y, GenesisOf(d.origin));
    } else {
      var x :| x in sent && x.Digest() == d;
      assert SameSlot(y, x.header.Vertex());
      DeliveriesAre(sent, y);
    }
  }

  lemma CoreSends(p: Setup, hash: Hash, cores: map<Key, Core>, k: Key)
    requires Safe(p, hash, cores) && k in cores
    ensures ParentsFirst(p.committee, cores[k].log.sent)
    ensures forall c :: c in cores[k].log.sent ==> c.header.Vertex() in Dag(p.committee, cores)
  {
    hide Base, OwnSound, Setup.Valid, WorldSound, ParentsFirst;
    InvOrdered(p.Node(k), hash, Signed(cores), cores[k]);
  }

  /** A certificate that compares equal to genesis but has parents is a second one in the slot of genesis. */
  lemma GoodIsPlain(cm: Committee, cores: map<Key, Core>)
    requires GoodDag(cm, Dag(cm, cores))
    ensures PlainGenesis(cm, cores)
  {
    GoodUnique(cm, Dag(cm, cores));
    hide QuorumParents, GoodDag;
    forall k, c | k in cores && c in cores[k].log.sent && IsGenesis(cm, c)
      ensures c.header.parents == []
    {
      assert SameSlot(c.header.Vertex(), GenesisOf(c.header.author));
      assert c.header.Vertex() in Dag(cm, cores) && GenesisOf(c.header.author) in Dag(cm, cores);
    }
  }

  /**
   * In a run of the system without a panic the certificates sent form a good DAG exactly if none of them compares equal to
   * genesis and has parents, and no two differ in one slot; then each honest node delivers them causally.
   */
  lemma WhatConsensusAssumes(p: Setup, hash: Hash, actions: seq<Action>)
    requires p.Valid() && Injective(hash) && PossibleRun(p, hash, actions) && NeverPanics(p, hash, actions)
    ensures var cores := RunSystem(p, hash, actions); var u := Dag(p.committee, cores);
            && cores.Keys == p.honest
            && (GoodDag(p.committee, u) <==> PlainGenesis(p.committee, cores) && SentUnique(cores))
            && (GoodDag(p.committee, u) ==>
                  forall k :: k in cores ==> E.Causal(p.committee, u, Deliveries(cores[k].log.sent)))
  {
    hide Injective, PossibleRun, NeverPanics, Setup.Valid;
    RunIsSafe(p, hash, actions);
    var cores := RunSystem(p, hash, actions);
    var u := Dag(p.committee, cores);
    assert cores.Keys == p.honest;
    hide Safe, GoodDag, E.Causal, RunSystem, PlainGenesis, SentUnique, Dag;
    if PlainGenesis(p.committee, cores) && SentUnique(cores) {
      DagIsGood(p, hash, cores);
      forall k | k in cores
        ensures E.Causal(p.committee, u, Deliveries(cores[k].log.sent))
      {
        CoreSends(p, hash, cores, k);
        DeliveriesCausal(p.committee, u, cores[k].log.sent);
      }
    } else if GoodDag(p.committee, u) {
      GoodIsPlain(p.committee, cores);
      GoodIsUnique(p.committee, cores);
    }
  }

  lemma GoodIsUnique(cm: Committee, cores: map<Key, Core>)
    requires GoodDag(cm, Dag(cm, cores))
    ensures SentUnique(cores)
  {
    GoodUnique(cm, Dag(cm, cores));
    hide QuorumParents, GoodDag;
    forall j, k, c, d | j in cores && k in cores && c in cores[j].log.sent && d in cores[k].log.sent
        && InSlot(c.header, d.header.author, d.header.round)
      ensures c.header.Vertex() == d.header.Vertex()
    {
      assert c.header.Vertex() in Dag(cm, cores) && d.header.Vertex() in Dag(cm, cores);
      assert SameSlot(c.header.Vertex(), d.header.Vertex());
    }
  }

  /** Slots that have one certifiable header have one certificate: in particular if every honest authority votes once. */
  lemma UniqueSlotsSend(p: Setup, hash: Hash, cores: map<Key, Core>)
    requires Safe(p, hash, cores) && PlainGenesis(p.committee, cores)
    requires OneHeaderPerSlot(p.committee, hash, Signed(cores))
    ensures SentUnique(cores)
  {
    var cm, w := p.committee, Signed(cores);
    hide Safe, Signed, Backed, Endorsed, OneHeaderPerSlot, VerifyHeader;
    assert cm.Valid() by {
      SafeCommittee(p, hash, cores);
    }
    SlotsUniqueExactly(cm, hash, w);
    forall j, k, c, d | j in cores && k in cores && c in cores[j].log.sent && d in cores[k].log.sent
        && InSlot(c.header, d.header.author, d.header.round)
      ensures c.header.Vertex() == d.header.Vertex()
    {
      if !IsGenesis(cm, c) {
        SentIsBacked(p, hash, cores, j, c);
        var _ := CertifiedIsGrounded(p, hash, cores, c);
      }
      if !IsGenesis(cm, d) {
        SentIsBacked(p, hash, cores, k, d);
        var _ := CertifiedIsGrounded(p, hash, cores, d);
      }
    }
  }

  lemma SafeCommittee(p: Setup, hash: Hash, cores: map<Key, Core>)
    requires Safe(p, hash, cores)
    ensures p.committee.Valid()
  {
  }

  /** No core goes down and the certificates form a good DAG: what the results on the whole system require of a run. */
  ghost predicate GoodRun(p: Setup, hash: Hash, actions: seq<Action>) {
    && p.Valid() && Injective(hash) && PossibleRun(p, hash, actions) && NeverPanics(p, hash, actions)
    && PlainGenesis(p.committee, RunSystem(p, hash, actions)) && SentUnique(RunSystem(p, hash, actions))
  }

  /** If every honest authority votes once, only a certificate that compares equal to genesis can spoil a run. */
  lemma OnceIsGood(p: Setup, hash: Hash, actions: seq<Action>)
    requires p.Valid() && Injective(hash) && PossibleRun(p, hash, actions) && NeverRevotes(p, hash, actions)
    ensures GoodRun(p, hash, actions) <==> PlainGenesis(p.committee, RunSystem(p, hash, actions))
  {
    hide Injective, PossibleRun, NeverRevotes, NeverPanics, OneVoteEach, OneHeaderPerSlot, PlainGenesis, SentUnique, RunSystem;
    var cores := RunSystem(p, hash, actions);
    OnceThroughout(p, hash, actions);
    RunIsSafe(p, hash, actions);
    OnceIsUnique(p, hash, cores);
    if PlainGenesis(p.committee, cores) {
      UniqueSlotsSend(p, hash, cores);
    }
  }
}
