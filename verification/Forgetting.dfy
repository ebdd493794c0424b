/**
 * What the missing check against `gcRound` comes to: two votes, and then two certificates, in one slot; and an authority
 * that goes down over its own header.
 */
module Forgetting {
  import opened Collections
  import opened Committees
  import opened Dags
  import opened Messages
  import opened Aggregators
  import opened Handlers
  import opened Delivery
  import opened Protocol
  import opened CoreSafety
  import opened SecondVotes
  import opened Systems
  import opened TwoAuthorities
  import opened Witness

  /**
   * A corollary of `VoteExactly`: a slot that was voted for gets a second vote after a clean-up exactly if it lies below the new `gcRound`:
   * for any header of the slot, the same one or another, whose parents and payload are there.
   */
  lemma SecondVoteExactly(n: Authority, s: Core, consensusRound: Round, g: Header, h: Header)
    requires Ordered(n.committee, s) && Remembers(s.gcRound, s.lastVoted, s.log.voted)
    requires n.gcDepth < consensusRound && s.gcRound + n.gcDepth <= consensusRound
    requires g in s.log.voted && InSlot(g, h.author, h.round) && Acceptable(n, s, h)
    ensures var t := Cleanup(n, s, consensusRound);
            s.log.voted + [h] <= ProcessHeader(n, t, h).0.log.voted <==> h.round < t.gcRound
  {
    hide ProcessHeader, Grounded, ParentsAmong, MissingPayload, VotesOnce, Ordered;
    var t := Cleanup(n, s, consensusRound);
    CleanupOrdered(n, s, consensusRound);
    assert Acceptable(n, t, h);
    VoteExactly(n, t, h);
    assert h.author in At(t.lastVoted, h.round) <==> t.gcRound <= h.round;
  }

  // ----- Two certificates in one slot -----

  const BATCH := Batch(7, 0)

  function First(hash: Hash): Header {
    HeaderOf(hash, 2, [])
  }

  function Second(hash: Hash): Header {
    HeaderOf(hash, 2, [BATCH])
  }

  /** A header that is refused: nobody knows its author. */
  function Strange(hash: Hash): Header {
    HeaderOf(hash, 3, [])
  }

  /**
   * The second header waits for its batch; the first is voted for; the batch comes; any message, here a refused one, makes
   * the core collect round 1; the second header comes back.
   */
  function Turns(hash: Hash): seq<Turn> {
    [Turn(HeaderIn(Second(hash)), 0)] + [Turn(HeaderIn(First(hash)), 0)] + [Turn(BatchStored(BATCH), 0)]
    + [Turn(HeaderIn(Strange(hash)), 60)] + [Turn(HeaderLoopback(Second(hash)), 60)]
  }

  function At1(turns: seq<Turn>): seq<Action> {
    seq(|turns|, i requires 0 <= i < |turns| => Action(1, turns[i]))
  }

  /** Authority 1 takes one more turn. */
  lemma Taken(hash: Hash, turns: seq<Turn>, t: Turn)
    requires PossibleRun(SETUP, hash, At1(turns)) && RunSystem(SETUP, hash, At1(turns)).Keys == {1}
    requires var cores := RunSystem(SETUP, hash, At1(turns));
             Admissible(NODE, hash, Signed(cores), cores[1], t.event) && Timely(NODE, cores[1], t)
    ensures PossibleRun(SETUP, hash, At1(turns + [t])) && RunSystem(SETUP, hash, At1(turns + [t])).Keys == {1}
    ensures RunSystem(SETUP, hash, At1(turns + [t]))[1] == Step(NODE, hash, RunSystem(SETUP, hash, At1(turns))[1], t).0
  {
    hide RunSystem, PossibleRun, Admissible, Signed, Step, Timely;
    assert At1(turns + [t]) == At1(turns) + [Action(1, t)];
    Next(SETUP, hash, At1(turns), Action(1, t));
  }

  /** The core once the second header waits, and once the first has its vote. */
  ghost predicate Waits(hash: Hash, s: Core, voted: seq<Header>) {
    && s.gcRound == 0 && s.lastVoted == (if voted == [] then map[] else map[1 := {2}]) && s.store.batches == {}
    && s.waitingHeaders == {Second(hash)} && s.log.voted == voted
  }

  lemma SecondWaits(hash: Hash)
    ensures Waits(hash, Step(NODE, hash, InitialCore(), Turn(HeaderIn(Second(hash)), 0)).0, [])
  {
    hide ProcessHeader, VerifyHeader;
    HeavyWeighs();
    Signed1(HEAVY, hash, 2, [BATCH]);
    assert BATCH in Second(hash).payload;
    OthersHeader(NODE, InitialCore(), Second(hash));
  }

  lemma FirstVoted(hash: Hash, s: Core)
    requires Waits(hash, s, [])
    ensures Waits(hash, Step(NODE, hash, s, Turn(HeaderIn(First(hash)), 0)).0, [First(hash)])
  {
    hide ProcessHeader, VerifyHeader;
    HeavyWeighs();
    Signed1(HEAVY, hash, 2, []);
    OthersHeader(NODE, s, First(hash));
    var no: set<Key> := {};
    assert no + {2} == {2};
  }

  lemma StrangeRefused(n: Authority, hash: Hash, s: Core)
    requires Pair(n.committee) && s.gcRound == 0
    ensures Handle(n, hash, s, HeaderIn(Strange(hash))) == (s, Err(UnknownAuthority(3)))
  {
    hide ProcessHeader;
  }

  lemma StrangeAdmissible(n: Authority, hash: Hash, cores: map<Key, Core>)
    requires 1 in cores && 3 !in cores && Pair(n.committee)
    ensures Admissible(n, hash, Signed(cores), cores[1], HeaderIn(Strange(hash)))
  {
    hide Pair, Grounded, ParentsAmong;
    RootsGround(n.committee, Strange(hash), {});
  }

  /** With the batch there, the refused message lets the core forget round 1. */
  lemma Collected(hash: Hash, s: Core)
    requires Waits(hash, s, [First(hash)])
    ensures var b := Step(NODE, hash, s, Turn(BatchStored(BATCH), 0)).0;
            var t := Step(NODE, hash, b, Turn(HeaderIn(Strange(hash)), 60)).0;
            && b.gcRound == 0 && t.gcRound == 10 && t.lastVoted == map[] && BATCH in t.store.batches
            && t.log.voted == [First(hash)] && Second(hash) in t.waitingHeaders
  {
    HeavyWeighs();
    StrangeRefused(NODE, hash, Step(NODE, hash, s, Turn(BatchStored(BATCH), 0)).0);
  }

  lemma SecondVoted(hash: Hash, s: Core)
    requires s.lastVoted == map[] && BATCH in s.store.batches && s.log.voted == [First(hash)]
    ensures Step(NODE, hash, s, Turn(HeaderLoopback(Second(hash)), 60)).0.log.voted == [First(hash)] + [Second(hash)]
  {
    hide ProcessHeader;
    HeavyWeighs();
    OthersHeader(NODE, s, Second(hash));
  }

  lemma BothArrived(hash: Hash)
    requires Injective(hash)
    ensures var t2 := [Turn(HeaderIn(Second(hash)), 0)] + [Turn(HeaderIn(First(hash)), 0)];
            && PossibleRun(SETUP, hash, At1(t2)) && RunSystem(SETUP, hash, At1(t2)).Keys == {1}
            && Waits(hash, RunSystem(SETUP, hash, At1(t2))[1], [First(hash)])
  {
    hide RunSystem, PossibleRun, Injective, Step, Signed, VerifyHeader, AuthenticHeader, AuthenticVote, VoteBacked, IsGenesis, At;
    HeavyWeighs();
    Started(SETUP, hash);
    var t1: seq<Turn> := [Turn(HeaderIn(Second(hash)), 0)];
    assert At1([]) == [] && [] + t1 == t1;
    assert InitialCores(SETUP)[1] == InitialCore();
    TheirsAdmissible(hash, RunSystem(SETUP, hash, At1([])), [BATCH]);
    Taken(hash, [], t1[0]);
    SecondWaits(hash);
    TheirsAdmissible(hash, RunSystem(SETUP, hash, At1(t1)), []);
    Taken(hash, t1, Turn(HeaderIn(First(hash)), 0));
    FirstVoted(hash, RunSystem(SETUP, hash, At1(t1))[1]);
  }

  /** In a run of signed and verified messages one core votes for two headers of one author in one round. */
  lemma LoopbackVotesTwice(hash: Hash)
    requires Injective(hash)
    ensures SETUP.Valid() && PossibleRun(SETUP, hash, At1(Turns(hash)))
    ensures RunSystem(SETUP, hash, At1(Turns(hash))).Keys == {1}
    ensures RunSystem(SETUP, hash, At1(Turns(hash)))[1].log.voted == [First(hash)] + [Second(hash)]
  {
    hide RunSystem, PossibleRun, Injective, Step, Signed, VerifyHeader, AuthenticHeader, AuthenticVote, VoteBacked, IsGenesis, At;
    HeavyWeighs();
    BothArrived(hash);
    var t2 := [Turn(HeaderIn(Second(hash)), 0)] + [Turn(HeaderIn(First(hash)), 0)];
    var t3 := t2 + [Turn(BatchStored(BATCH), 0)];
    var t4 := t3 + [Turn(HeaderIn(Strange(hash)), 60)];
    Taken(hash, t2, Turn(BatchStored(BATCH), 0));
    Collected(hash, RunSystem(SETUP, hash, At1(t2))[1]);
    StrangeAdmissible(NODE, hash, RunSystem(SETUP, hash, At1(t3)));
    Taken(hash, t3, Turn(HeaderIn(Strange(hash)), 60));
    Taken(hash, t4, Turn(HeaderLoopback(Second(hash)), 60));
    SecondVoted(hash, RunSystem(SETUP, hash, At1(t4))[1]);
  }

  lemma VotedIsBacked(hash: Hash, cores: map<Key, Core>, payload: seq<Batch>)
    requires cores.Keys == {1} && HeaderOf(hash, 2, payload) in cores[1].log.voted
    requires forall b :: b in payload ==> HEAVY.HasWorker(2, b.worker)
    ensures Backed(HEAVY, hash, Signed(cores), Certify(HeaderOf(hash, 2, payload)))
  {
    hide VerifyHeader, NoRepeats, Pair, QuorumOfVotes, Grounded, ParentsAmong;
    var h := HeaderOf(hash, 2, payload);
    HeavyWeighs();
    QuorumOfOne();
    Signed1(HEAVY, hash, 2, payload);
    RootsGround(HEAVY, h, {});
    TheirsAdmissible(hash, cores, payload);
  }

  /** ... and with its stake both headers are certified: two certificates that verify, of one author and one round. */
  lemma TwoCertificates(hash: Hash)
    requires Injective(hash)
    ensures var w := Signed(RunSystem(SETUP, hash, At1(Turns(hash)))); var c := Certify(First(hash)); var d := Certify(Second(hash));
            && PossibleRun(SETUP, hash, At1(Turns(hash))) && !NeverRevotes(SETUP, hash, At1(Turns(hash)))
            && Backed(HEAVY, hash, w, c) && Backed(HEAVY, hash, w, d)
            && c.header.author == d.header.author && c.header.round == d.header.round && c.header != d.header
  {
    hide RunSystem, PossibleRun, NeverRevotes, Injective, Signed, Backed;
    LoopbackVotesTwice(hash);
    var cores := RunSystem(SETUP, hash, At1(Turns(hash)));
    var voted := cores[1].log.voted;
    assert voted[0] == First(hash) && voted[1] == Second(hash) && InSlot(voted[0], 2, 1);
    assert First(hash) in voted && Second(hash) in voted;
    VotedIsBacked(hash, cores, []);
    VotedIsBacked(hash, cores, [BATCH]);
    assert !OneVoteEach(cores);
    OneVoteExactly(SETUP, hash, At1(Turns(hash)));
  }

  // ----- An authority that goes down over its own header -----

  // Both authorities are honest, and each needs the vote of the other.
  const EVEN := Committee([1, 2], map[1 := 1, 2 := 1], map[])
  const BOTH := Setup(EVEN, 50, {1, 2})

  function Proposes(hash: Hash): Action {
    Action(1, Turn(OwnHeader(Mine(hash)), 0))
  }

  function Receives(hash: Hash): Action {
    Action(2, Turn(HeaderIn(Mine(hash)), 0))
  }

  /** Any message makes the core collect. */
  function Collects(hash: Hash): Action {
    Action(1, Turn(HeaderIn(Strange(hash)), 60))
  }

  /** The other authority's vote arrives when consensus has moved on by more than the depth of the garbage collector. */
  function Late(hash: Hash): Action {
    Action(1, Turn(VoteIn(VoteFor(Mine(hash), 2)), 60))
  }

  function Before(hash: Hash): seq<Action> {
    [Proposes(hash)] + [Receives(hash)] + [Collects(hash)]
  }

  lemma EvenWeighs()
    ensures Pair(EVEN) && EVEN.QuorumThreshold() == 2 && BOTH.Valid()
  {
    PairWeighs(EVEN, (set k | k in EVEN.keys) - BOTH.honest);
  }

  /** The own header is voted for, and one more vote is needed. */
  lemma OneVoteShort(hash: Hash)
    ensures var s := Voted(InitialCore(), Mine(hash));
            ProcessVote(BOTH.Node(1), s, VoteFor(Mine(hash), 1)) == (s.(votes := Votes(1, [1], {1})), Ok)
  {
    hide Committee.QuorumThreshold, Voted, ProcessCertificate;
    EvenWeighs();
    VotedFirst(Mine(hash));
    assert EVEN.Stake(1) == 1;
    assert NO_VOTES.used + {1} == {1} && NO_VOTES.votes + [1] == [1];
  }

  ghost predicate Waiting(hash: Hash, s: Core) {
    && s.gcRound == 0 && s.lastVoted == map[1 := {1}] && s.processing == map[1 := {Mine(hash).id}]
    && s.current == Mine(hash) && s.votes == Votes(1, [1], {1})
    && s.log.voted == [Mine(hash)] && s.log.proposed == [Mine(hash)]
  }

  lemma Proposed(hash: Hash)
    requires Injective(hash)
    ensures PossibleRun(BOTH, hash, [Proposes(hash)])
    ensures var cores := RunSystem(BOTH, hash, [Proposes(hash)]);
            cores.Keys == {1, 2} && Waiting(hash, cores[1]) && cores[2] == InitialCore()
  {
    hide Admissible, ProcessVote, Step, RunSystem, PossibleRun, Signed, Voted;
    EvenWeighs();
    Started(BOTH, hash);
    Next(BOTH, hash, [], Proposes(hash));
    assert [] + [Proposes(hash)] == [Proposes(hash)];
    assert InitialCores(BOTH)[1] == InitialCore();
    OwnHeaderFirst(BOTH.Node(1), hash, Signed(InitialCores(BOTH)), 0);
    OneVoteShort(hash);
    VotedFirst(Mine(hash));
  }

  lemma VotedByOther(hash: Hash)
    ensures Step(BOTH.Node(2), hash, InitialCore(), Turn(HeaderIn(Mine(hash)), 0)).0.log.voted == [Mine(hash)]
  {
    hide ProcessHeader, VerifyHeader;
    EvenWeighs();
    Signed1(EVEN, hash, 1, []);
    OthersHeader(BOTH.Node(2), InitialCore(), Mine(hash));
  }

  lemma MineAdmissible(hash: Hash, cores: map<Key, Core>)
    requires cores.Keys == {1, 2} && cores[1].log.proposed == [Mine(hash)]
    ensures Admissible(BOTH.Node(2), hash, Signed(cores), cores[2], HeaderIn(Mine(hash)))
    ensures cores[2].log.voted == [Mine(hash)] ==>
              Admissible(BOTH.Node(1), hash, Signed(cores), cores[1], VoteIn(VoteFor(Mine(hash), 2)))
              && VoteBacked(Signed(cores), 2, Mine(hash))
  {
    hide Grounded, ParentsAmong, NoRepeats, Pair;
    EvenWeighs();
    RootsGround(EVEN, Mine(hash), {});
    var w := Signed(cores);
    assert Mine(hash) in cores[1].log.proposed;
    assert Mine(hash) in w.proposals[1];
    if cores[2].log.voted == [Mine(hash)] {
      assert Mine(hash) in cores[2].log.voted;
      assert Mine(hash) in w.votes[2] && VoteFor(Mine(hash), 2) == VoteFor(Mine(hash), 2);
    }
  }

  lemma CollectedOwn(hash: Hash, s: Core)
    requires Waiting(hash, s)
    ensures var t := Step(BOTH.Node(1), hash, s, Collects(hash).turn).0;
            && t.gcRound == 10 && t.lastVoted == map[] && t.processing == map[] && t.votes == s.votes
            && t.current == s.current && t.log == s.log
  {
    EvenWeighs();
    StrangeRefused(BOTH.Node(1), hash, s);
  }

  lemma ReadyToFall(hash: Hash)
    requires Injective(hash)
    ensures PossibleRun(BOTH, hash, Before(hash))
    ensures var cores := RunSystem(BOTH, hash, Before(hash)); var s := cores[1];
            && cores.Keys == {1, 2} && cores[2].log.voted == [Mine(hash)]
            && s.gcRound == 10 && s.lastVoted == map[] && s.processing == map[] && s.votes == Votes(1, [1], {1})
            && s.current == Mine(hash) && s.log.voted == [Mine(hash)] && s.log.proposed == [Mine(hash)]
  {
    hide Admissible, Step, RunSystem, PossibleRun, Signed, Injective;
    EvenWeighs();
    var a1, a2 := [Proposes(hash)], [Proposes(hash)] + [Receives(hash)];
    Proposed(hash);
    MineAdmissible(hash, RunSystem(BOTH, hash, a1));
    Next(BOTH, hash, a1, Receives(hash));
    VotedByOther(hash);
    StrangeAdmissible(BOTH.Node(1), hash, RunSystem(BOTH, hash, a2));
    Next(BOTH, hash, a2, Collects(hash));
    CollectedOwn(hash, RunSystem(BOTH, hash, a2)[1]);
  }

  lemma OneOfOne(cores: map<Key, Core>, h: Header)
    requires forall k :: k in cores ==> cores[k].log.voted == [h]
    ensures OneVoteEach(cores)
  {
  }

  lemma EvenQuorum(hash: Hash)
    ensures AppendVote(EVEN, Votes(1, [1], {1}), 2).1.Quorum? && 0 < EVEN.Stake(2)
  {
    hide Committee.QuorumThreshold;
    EvenWeighs();
  }

  /** A run of honest authorities, every message signed and in time, in which the last turn takes an authority down. */
  lemma LateVotePanics(hash: Hash)
    requires Injective(hash)
    ensures BOTH.Valid() && PossibleRun(BOTH, hash, Before(hash) + [Late(hash)]) && NeverRevotes(BOTH, hash, Before(hash))
    ensures NeverPanics(BOTH, hash, Before(hash)) && !NeverPanics(BOTH, hash, Before(hash) + [Late(hash)])
    ensures Step(BOTH.Node(1), hash, RunSystem(BOTH, hash, Before(hash))[1], Late(hash).turn).1 == Panic
  {
    hide Admissible, RunSystem, PossibleRun, NeverRevotes, Signed, Injective, Inv, ProcessVote, AppendVote, VoteBacked, OneVoteEach, NeverPanics;
    EvenWeighs();
    var n, actions := BOTH.Node(1), Before(hash);
    var cores := RunSystem(BOTH, hash, actions);
    ReadyToFall(hash);
    OneOfOne(cores, Mine(hash));
    OnceSoFar(BOTH, hash, actions);
    MineAdmissible(hash, cores);
    Next(BOTH, hash, actions, Late(hash));
    OnceThroughout(BOTH, hash, actions);
    RunIsSafe(BOTH, hash, actions);
    EvenQuorum(hash);
    LateQuorumExactly(n, hash, Signed(cores), cores[1], VoteFor(Mine(hash), 2));
    PanicEnds(BOTH, hash, actions, Late(hash));
  }

  lemma PanicEnds(p: Setup, hash: Hash, actions: seq<Action>, a: Action)
    requires Panics(p, hash, RunSystem(p, hash, actions), a)
    ensures !NeverPanics(p, hash, actions + [a])
  {
    hide Panics;
    assert (actions + [a])[..|actions|] == actions;
  }
}
