/**
 * A certificate that compares equal to genesis verifies without a check. With parents of its own it is refused once, and
 * sent to consensus when it comes again: its identifier is by then among those being processed.
 */
module LookAlike {
  import opened Committees
  import opened Dags
  import opened Messages
  import opened Aggregators
  import opened Handlers
  import opened Systems
  import opened Composition
  import opened TwoAuthorities
  import opened Witness

  /** Identifier, round and author of the genesis of authority 2, over the certificate of authority 1. */
  function Fake(hash: Hash): Certified {
    Certified(Header(2, 0, [], [Certify(Mine(hash)).Digest()], GENESIS_ID), [])
  }

  function FakeRun(hash: Hash): seq<Action> {
    [Own(hash)] + [Action(1, Turn(CertificateIn(Fake(hash)), 0))] + [Action(1, Turn(CertificateIn(Fake(hash)), 0))]
  }

  lemma FakeVerifies(hash: Hash)
    ensures IsGenesis(HEAVY, Fake(hash)) && Verify(HEAVY, hash, Fake(hash)) == Ok
  {
    assert HEAVY.keys[1] == 2;
  }

  /** The first time the header of the certificate is malformed, since its parent is not of the round below. */
  lemma FirstRefused(hash: Hash, s: Core)
    requires AfterOwn(hash, s)
    ensures Handle(NODE, hash, s, CertificateIn(Fake(hash))) == (Begin(s, Fake(hash).header), Err(MalformedHeader(GENESIS_ID)))
  {
    hide Deliverable, Accept;
    FakeVerifies(hash);
    var h, c := Fake(hash).header, Certify(Mine(hash));
    assert h.parents[1..] == [];
    var nothing: seq<Certified> := [];
    assert GetParents(HEAVY, s.store, h.parents[1..]) == Some(nothing);
    assert Available(HEAVY, s.store, h.parents[0]) == Some(c);
    assert [c] + nothing == [c];
    assert GetParents(HEAVY, s.store, h.parents) == Some([c]);
    assert CheckParents(HEAVY, h, [c], 0) == Err(MalformedHeader(GENESIS_ID));
    assert ProcessHeader(NODE, s, h) == (Begin(s, h), Err(MalformedHeader(GENESIS_ID)));
    assert h.id !in At(s.processing, h.round);
    assert ProcessCertificate(NODE, s, Fake(hash)) == ProcessHeader(NODE, s, h);
    assert SanitizeCertificate(NODE, hash, s, Fake(hash)) == Ok;
  }

  lemma SecondSent(hash: Hash, s: Core)
    requires AfterOwn(hash, s)
    ensures var t := Handle(NODE, hash, Begin(s, Fake(hash).header), CertificateIn(Fake(hash))).0;
            t.log.sent == [Certify(Mine(hash)), Fake(hash)] && t.log.voted == [Mine(hash)]
  {
    hide ProcessHeader, AppendCertificate, GetParents;
    FakeVerifies(hash);
    var t := Begin(s, Fake(hash).header);
    assert Fake(hash).header.id in At(t.processing, 0);
    assert Deliverable(HEAVY, t.store, Fake(hash));
  }

  /** A run with no second vote in which what is sent to consensus is no good DAG: two vertices in the slot of a genesis. */
  lemma LookAlikeBreaksDag(hash: Hash)
    requires Injective(hash)
    ensures SETUP.Valid() && PossibleRun(SETUP, hash, FakeRun(hash)) && NeverRevotes(SETUP, hash, FakeRun(hash))
    ensures var cores := RunSystem(SETUP, hash, FakeRun(hash));
            && cores.Keys == {1} && cores[1].log.sent == [Certify(Mine(hash)), Fake(hash)]
            && !GoodDag(HEAVY, Dag(HEAVY, cores))
  {
    hide Handle, RunSystem, PossibleRun, NeverRevotes, Injective, Step, Signed, IsGenesis, AfterOwn, GoodDag, Dag, SentUnique, NeverPanics;
    HeavyWeighs();
    OwnRun(hash);
    FakeVerifies(hash);
    var a1 := [Own(hash)];
    var e := CertificateIn(Fake(hash));
    var a2 := a1 + [Action(1, Turn(e, 0))];
    Extend(hash, a1, e);
    FirstRefused(hash, RunSystem(SETUP, hash, a1)[1]);
    Extend(hash, a2, e);
    SecondSent(hash, RunSystem(SETUP, hash, a1)[1]);
    var cores := RunSystem(SETUP, hash, FakeRun(hash));
    OneVote(hash, cores);
    OnceSoFar(SETUP, hash, FakeRun(hash));
    OnceThroughout(SETUP, hash, FakeRun(hash));
    WhatConsensusAssumes(SETUP, hash, FakeRun(hash));
    assert Fake(hash) in cores[1].log.sent && Fake(hash).header.parents != [];
  }

  lemma OneVote(hash: Hash, cores: map<Key, Core>)
    requires cores.Keys == {1} && cores[1].log.voted == [Mine(hash)]
    ensures OneVoteEach(cores)
  {
  }
}
