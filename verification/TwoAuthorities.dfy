/** Tools for concrete runs of the certificate layer: two authorities, and headers over their genesis certificates. */
module TwoAuthorities {
  import opened Collections
  import opened Committees
  import opened Dags
  import opened Messages
  import opened Handlers
  import opened Delivery
  import opened Protocol
  import opened CoreSafety
  import opened Systems

  const ROOTS: seq<Digest> := [Hashed(GENESIS_ID, 0, 1), Hashed(GENESIS_ID, 0, 2)]

  ghost predicate Pair(cm: Committee) {
    cm.keys == [1, 2] && cm.stakes.Keys == {1, 2} && 0 < cm.stakes[1] && 0 < cm.stakes[2]
  }

  function HeaderOf(hash: Hash, author: Key, payload: seq<Batch>): Header {
    Header(author, 1, payload, ROOTS, hash(author, 1, payload, ROOTS))
  }

  lemma PairWeighs(cm: Committee, names: set<Key>)
    requires Pair(cm)
    ensures cm.Valid() && cm.Total() == cm.stakes[1] + cm.stakes[2]
    ensures cm.QuorumThreshold() == 2 * (cm.stakes[1] + cm.stakes[2]) / 3 + 1
    ensures cm.Weight(names) == (if 1 in names then cm.stakes[1] else 0) + (if 2 in names then cm.stakes[2] else 0)
  {
    cm.OfTwo(1, 2, names);
  }

  lemma RootsFound(cm: Committee, store: Store, h: Header)
    requires Pair(cm) && h.round == 1
    ensures GetParents(cm, store, ROOTS) == Some([GenesisCertificate(1), GenesisCertificate(2)])
    ensures CheckParents(cm, h, [GenesisCertificate(1), GenesisCertificate(2)], 0) == Ok
  {
    hide Committee.QuorumThreshold;
    PairWeighs(cm, {});
    assert cm.keys[0] == 1 && cm.keys[1] == 2;
    var one, two := GenesisCertificate(1), GenesisCertificate(2);
    var nothing: seq<Certified> := [];
    assert ROOTS[1..] == [Hashed(GENESIS_ID, 0, 2)] && ROOTS[1..][1..] == [];
    assert GetParents(cm, store, ROOTS[1..][1..]) == Some(nothing);
    assert [two] + nothing == [two] && [one] + [two] == [one, two];
    assert GetParents(cm, store, ROOTS[1..]) == Some([two]);
    var ps := [one, two];
    assert ps[1..] == [two] && ps[1..][1..] == [];
    assert CheckParents(cm, h, ps[1..], cm.stakes[1]) == Ok;
  }

  lemma RootsGround(cm: Committee, h: Header, known: set<Digest>)
    requires Pair(cm) && h.round == 1 && h.parents == ROOTS
    ensures Grounded(cm, h) && ParentsAmong(cm, ROOTS, known) && NoRepeats(ROOTS)
  {
    hide Committee.QuorumThreshold;
    PairWeighs(cm, {});
    assert cm.keys[0] == 1 && cm.keys[1] == 2;
    assert ROOTS[1..] == [Hashed(GENESIS_ID, 0, 2)] && ROOTS[1..][1..] == [];
    assert StakeOf(cm, ROOTS[1..]) == cm.stakes[2];
    assert StakeOf(cm, ROOTS) == cm.stakes[1] + cm.stakes[2];
  }

  lemma RootsDeliverable(cm: Committee, store: Store, c: Certified)
    requires Pair(cm) && c.header.parents == ROOTS
    ensures Deliverable(cm, store, c)
  {
    assert cm.keys[0] == 1 && cm.keys[1] == 2;
  }

  /** A header of another authority over the two genesis certificates waits for its payload or gets its vote. */
  lemma OthersHeader(n: Authority, s: Core, h: Header)
    requires Pair(n.committee) && h.parents == ROOTS && h.round == 1 && h.author in {1, 2} - {n.name}
    requires h.author !in At(s.lastVoted, 1)
    ensures ProcessHeader(n, s, h) ==
            if MissingPayload(n, s.store, h) then (Begin(s, h).(waitingHeaders := s.waitingHeaders + {h}), Ok)
            else (RecordVote(StoreHeader(Begin(s, h), h), h), Ok)
  {
    hide GetParents, CheckParents, At, MissingPayload;
    RootsFound(n.committee, s.store, h);
  }

  lemma Signed1(cm: Committee, hash: Hash, author: Key, payload: seq<Batch>)
    requires Pair(cm) && author in {1, 2} && forall b :: b in payload ==> cm.HasWorker(author, b.worker)
    ensures VerifyHeader(cm, hash, HeaderOf(hash, author, payload)).Ok?
  {
  }

  /** The own header of authority 1 is accepted at the start of a run, and its vote counted. */
  lemma OwnHeaderFirst(n: Authority, hash: Hash, w: World, consensusRound: Round)
    requires Pair(n.committee) && n.name == 1 && consensusRound <= n.gcDepth
    ensures var h := HeaderOf(hash, 1, []); var s := InitialCore();
            && Admissible(n, hash, w, s, OwnHeader(h))
            && Step(n, hash, s, Turn(OwnHeader(h), consensusRound)).0
               == ProcessVote(n, Voted(s, h), VoteFor(h, 1)).0
  {
    hide ProcessVote, ProcessHeader, Committee.QuorumThreshold, VerifyHeader, Grounded, ParentsAmong, NoRepeats;
    var h := HeaderOf(hash, 1, []);
    Signed1(n.committee, hash, 1, []);
    RootsGround(n.committee, h, {});
    assert InitialCore().store.certificates.Keys == {};
    assert Ordered(n.committee, InitialCore()) by {
      StartsOrdered(n.committee);
    }
    StillOrdered(n, InitialCore(), h);
    hide Ordered;
    OwnHeaderVoted(n, Proposing(InitialCore(), h), h);
  }

  /** A run and one more action. */
  lemma Next(p: Setup, hash: Hash, actions: seq<Action>, a: Action)
    ensures RunSystem(p, hash, actions + [a]) == Act(p, hash, RunSystem(p, hash, actions), a)
    ensures PossibleRun(p, hash, actions + [a]) <==>
            PossibleRun(p, hash, actions) && Possible(p, hash, RunSystem(p, hash, actions), a)
  {
    hide Act, Possible;
    assert (actions + [a])[..|actions|] == actions;
  }

  lemma Started(p: Setup, hash: Hash)
    ensures RunSystem(p, hash, []) == InitialCores(p) && PossibleRun(p, hash, [])
  {
  }

  /** Nothing was forgotten in a run that ends with at most one vote per slot. */
  lemma OnceSoFar(p: Setup, hash: Hash, actions: seq<Action>)
    requires OneVoteEach(RunSystem(p, hash, actions))
    ensures NeverRevotes(p, hash, actions)
  {
    hide OneVoteEach, RunSystem, NeverRevotes;
    if !NeverRevotes(p, hash, actions) {
      TwiceBefore(p, hash, actions);
    }
  }
}
