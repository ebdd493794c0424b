/**
 * A run that meets every hypothesis on the system: an honest authority proposes, certifies its header, and handles a
 * header, a vote and a certificate of a Byzantine one.
 */
module Witness {
  import opened Collections
  import opened Committees
  import opened Messages
  import opened Aggregators
  import opened Handlers
  import opened Delivery
  import opened Protocol
  import opened CoreSafety
  import opened Systems
  import opened Composition
  import opened TwoAuthorities

  // Authority 1 is a quorum by itself; authority 2 is Byzantine.
  const HEAVY := Committee([1, 2], map[1 := 3, 2 := 1], map[2 := {0}])
  const SETUP := Setup(HEAVY, 50, {1})
  const NODE := SETUP.Node(1)

  function Mine(hash: Hash): Header {
    HeaderOf(hash, 1, [])
  }

  function Theirs(hash: Hash): Header {
    HeaderOf(hash, 2, [])
  }

  function Certify(h: Header): Certified {
    Certified(h, [1])
  }

  function Own(hash: Hash): Action {
    Action(1, Turn(OwnHeader(Mine(hash)), 0))
  }

  lemma HeavyWeighs()
    ensures Pair(HEAVY) && HEAVY.QuorumThreshold() == 3 && SETUP.Valid()
  {
    PairWeighs(HEAVY, (set k | k in HEAVY.keys) - SETUP.honest);
  }

  lemma QuorumOfOne()
    ensures QuorumOfVotes(HEAVY, [1])
  {
    PairWeighs(HEAVY, Voters([1]));
  }

  /** The core once its own header is certified and sent. */
  ghost predicate AfterOwn(hash: Hash, s: Core) {
    var h := Mine(hash);
    && s.gcRound == 0 && s.current == h && s.votes == Votes(0, [1], {1})
    && s.lastVoted == map[1 := {1}] && s.processing == map[1 := {h.id}]
    && s.store.certificates == map[Certify(h).Digest() := Certify(h)] && s.store.batches == {}
    && s.waitingHeaders == {} && s.waitingCertificates == {}
    && s.log.voted == [h] && s.log.proposed == [h] && s.log.sent == [Certify(h)]
  }

  lemma VotedFirst(h: Header)
    requires h.author == 1 && h.round == 1
    ensures var s := Voted(InitialCore(), h);
            && s.gcRound == 0 && s.current == h && s.votes == NO_VOTES
            && s.lastVoted == map[1 := {1}] && s.processing == map[1 := {h.id}]
            && s.store.certificates == map[] && s.store.batches == {}
            && s.waitingHeaders == {} && s.waitingCertificates == {}
            && s.log.voted == [h] && s.log.proposed == [h] && s.log.sent == []
  {
    var no: set<nat> := {};
    assert no + {1} == {1} && no + {h.id} == {h.id};
  }

  lemma OwnQuorum(s: Core, h: Header)
    requires h.author == 1 && h.round == 1 && h.parents == ROOTS
    requires s.votes == NO_VOTES && s.current == h && h.id in At(s.processing, 1)
    ensures var c := Certify(h);
            ProcessVote(NODE, s, VoteFor(h, 1)).0
            == Accept(NODE, s.(votes := Votes(0, [1], {1}), log := s.log.(assembled := s.log.assembled + [c])), c)
  {
    hide Committee.QuorumThreshold, Accept, Deliverable, At, ProcessHeader;
    HeavyWeighs();
    assert HEAVY.Stake(1) == 3;
    assert NO_VOTES.used + {1} == {1} && NO_VOTES.votes + [1] == [1];
    assert AppendVote(HEAVY, NO_VOTES, 1) == (Votes(0, [1], {1}), Quorum([1]));
    var s1 := s.(votes := Votes(0, [1], {1}), log := s.log.(assembled := s.log.assembled + [Certify(h)]));
    RootsDeliverable(HEAVY, s1.store, Certify(h));
  }

  lemma OwnVoteCertifies(hash: Hash)
    ensures AfterOwn(hash, ProcessVote(NODE, Voted(InitialCore(), Mine(hash)), VoteFor(Mine(hash), 1)).0)
  {
    hide AppendCertificate, Voted, ProcessVote;
    VotedFirst(Mine(hash));
    OwnQuorum(Voted(InitialCore(), Mine(hash)), Mine(hash));
  }

  lemma OwnRun(hash: Hash)
    requires Injective(hash)
    ensures PossibleRun(SETUP, hash, [Own(hash)])
    ensures RunSystem(SETUP, hash, [Own(hash)]).Keys == {1} && AfterOwn(hash, RunSystem(SETUP, hash, [Own(hash)])[1])
  {
    hide Admissible, ProcessVote, AfterOwn, Step, RunSystem, PossibleRun;
    HeavyWeighs();
    Started(SETUP, hash);
    Next(SETUP, hash, [], Own(hash));
    assert [] + [Own(hash)] == [Own(hash)];
    assert InitialCores(SETUP)[1] == InitialCore();
    OwnHeaderFirst(NODE, hash, Signed(InitialCores(SETUP)), 0);
    OwnVoteCertifies(hash);
  }

  // ----- The Byzantine authority -----

  function Actions(hash: Hash): seq<Action> {
    [Own(hash)] + [Action(1, Turn(HeaderIn(Theirs(hash)), 0))]
    + [Action(1, Turn(VoteIn(VoteFor(Mine(hash), 2)), 0))]
    + [Action(1, Turn(CertificateIn(Certify(Theirs(hash))), 0))]
  }

  /** ... and once it has voted for their header. */
  ghost predicate AfterTheirs(hash: Hash, s: Core) {
    var h := Theirs(hash);
    && s.gcRound == 0 && s.current == Mine(hash) && s.votes == Votes(0, [1], {1})
    && h.id in At(s.processing, 1)
    && s.log.voted == [Mine(hash)] + [h] && s.log.proposed == [Mine(hash)] && s.log.sent == [Certify(Mine(hash))]
  }

  lemma TheirHeader(hash: Hash, s: Core)
    requires AfterOwn(hash, s)
    ensures var h := Theirs(hash);
            AfterTheirs(hash, Handle(NODE, hash, s, HeaderIn(h)).0)
  {
    hide ProcessHeader;
    HeavyWeighs();
    Signed1(HEAVY, hash, 2, []);
    OthersHeader(NODE, s, Theirs(hash));
  }

  lemma TheirVote(hash: Hash, s: Core)
    requires AfterTheirs(hash, s)
    ensures var (t, r) := Handle(NODE, hash, s, VoteIn(VoteFor(Mine(hash), 2)));
            r.Ok? && t == s.(votes := t.votes)
  {
    hide Committee.QuorumThreshold, ProcessCertificate;
    HeavyWeighs();
  }

  lemma TheirCertificate(hash: Hash, s: Core)
    requires s.gcRound == 0 && Theirs(hash).id in At(s.processing, 1) && s.log.sent == [Certify(Mine(hash))]
    ensures var t := Handle(NODE, hash, s, CertificateIn(Certify(Theirs(hash)))).0;
            t.log.sent == [Certify(Mine(hash)), Certify(Theirs(hash))] && t.log.voted == s.log.voted
  {
    hide Committee.QuorumThreshold, AppendCertificate, Deliverable, VerifyHeader, QuorumOfVotes, CheckVotes;
    HeavyWeighs();
    QuorumOfOne();
    Signed1(HEAVY, hash, 2, []);
    VerifyExact(HEAVY, hash, Certify(Theirs(hash)));
    RootsDeliverable(HEAVY, s.store, Certify(Theirs(hash)));
  }

  lemma Extend(hash: Hash, actions: seq<Action>, e: Event)
    requires PossibleRun(SETUP, hash, actions) && RunSystem(SETUP, hash, actions).Keys == {1}
    requires var cores := RunSystem(SETUP, hash, actions); Admissible(NODE, hash, Signed(cores), cores[1], e)
    ensures var after := actions + [Action(1, Turn(e, 0))];
            && PossibleRun(SETUP, hash, after) && RunSystem(SETUP, hash, after).Keys == {1}
            && RunSystem(SETUP, hash, after)[1] == Handle(NODE, hash, RunSystem(SETUP, hash, actions)[1], e).0
  {
    hide Handle, RunSystem, PossibleRun, Admissible, Signed;
    Next(SETUP, hash, actions, Action(1, Turn(e, 0)));
  }

  /** The honest authority did vote for their header, and it never signs in the name of the Byzantine one. */
  lemma TheirsAdmissible(hash: Hash, cores: map<Key, Core>, payload: seq<Batch>)
    requires cores.Keys == {1}
    ensures var h := HeaderOf(hash, 2, payload); var w := Signed(cores);
            && Admissible(NODE, hash, w, cores[1], HeaderIn(h))
            && Admissible(NODE, hash, w, cores[1], VoteIn(VoteFor(Mine(hash), 2)))
            && (h in cores[1].log.voted ==>
                  Admissible(NODE, hash, w, cores[1], CertificateIn(Certify(h))) && VoteBacked(w, 1, h))
  {
    hide ParentsAmong, Grounded, NoRepeats, Pair, VerifyHeader;
    HeavyWeighs();
    var h, w := HeaderOf(hash, 2, payload), Signed(cores);
    RootsGround(HEAVY, h, {});
    if h in cores[1].log.voted {
      assert h in w.votes[1] && VoteFor(h, 1) == VoteFor(h, 1);
      assert AuthenticVote(w, VoteFor(h, 1));
    }
  }

  /** All hypotheses on the system hold of a run in which certificates of both are sent. */
  lemma WitnessRun(hash: Hash)
    requires Injective(hash)
    ensures GoodRun(SETUP, hash, Actions(hash)) && NeverRevotes(SETUP, hash, Actions(hash))
    ensures RunSystem(SETUP, hash, Actions(hash))[1].log.sent == [Certify(Mine(hash)), Certify(Theirs(hash))]
    ensures RunSystem(SETUP, hash, Actions(hash))[1].log.voted == [Mine(hash)] + [Theirs(hash)]
  {
    hide Handle, RunSystem, PossibleRun, NeverRevotes, Injective, Step, Admissible, Signed, VerifyHeader, GoodRun, PlainGenesis;
    HeavyWeighs();
    var h, g := Mine(hash), Theirs(hash);
    OwnRun(hash);
    var a1 := [Own(hash)];
    var e2, e3, e4 := HeaderIn(g), VoteIn(VoteFor(h, 2)), CertificateIn(Certify(g));
    var a2 := a1 + [Action(1, Turn(e2, 0))];
    var a3 := a2 + [Action(1, Turn(e3, 0))];
    TheirsAdmissible(hash, RunSystem(SETUP, hash, a1), []);
    Extend(hash, a1, e2);
    TheirHeader(hash, RunSystem(SETUP, hash, a1)[1]);
    TheirsAdmissible(hash, RunSystem(SETUP, hash, a2), []);
    Extend(hash, a2, e3);
    TheirVote(hash, RunSystem(SETUP, hash, a2)[1]);
    TheirsAdmissible(hash, RunSystem(SETUP, hash, a3), []);
    Extend(hash, a3, e4);
    TheirCertificate(hash, RunSystem(SETUP, hash, a3)[1]);
    TwoAuthors(hash, RunSystem(SETUP, hash, Actions(hash)));
    OnceSoFar(SETUP, hash, Actions(hash));
    OnceIsGood(SETUP, hash, Actions(hash));
    NoLookAlike(hash, RunSystem(SETUP, hash, Actions(hash)));
  }

  lemma NoLookAlike(hash: Hash, cores: map<Key, Core>)
    requires cores.Keys == {1} && cores[1].log.sent == [Certify(Mine(hash)), Certify(Theirs(hash))]
    ensures PlainGenesis(HEAVY, cores)
  {
  }

  lemma TwoAuthors(hash: Hash, cores: map<Key, Core>)
    requires cores.Keys == {1} && cores[1].log.voted == [Mine(hash)] + [Theirs(hash)]
    ensures OneVoteEach(cores)
  {
  }
}
