/** Certificates, the edges between them, and what the certificate layer guarantees about them. */
module Dags {
  import opened Committees

  type Round = nat

  /** A certificate digest hashes the header identifier, the round and the author; the hash is taken to be injective. */
  datatype Digest = Hashed(id: nat, round: Round, origin: Key)

  /** What the commit engine reads of a certificate. `parents` is in iteration order. */
  datatype Certificate = Certificate(author: Key, round: Round, id: nat, parents: seq<Digest>) {
    function Digest(): Digest {
      Hashed(id, round, author)
    }
  }

  const GENESIS_ID: nat := 0

  function GenesisOf(k: Key): Certificate {
    Certificate(k, 0, GENESIS_ID, [])
  }

  ghost function Genesis(cm: Committee): set<Certificate> {
    set k | k in cm.keys :: GenesisOf(k)
  }

  ghost predicate Edge(x: Certificate, y: Certificate) {
    y.Digest() in x.parents
  }

  ghost predicate SameSlot(x: Certificate, y: Certificate) {
    x.author == y.author && x.round == y.round
  }

  ghost function Authors(s: set<Certificate>): set<Key> {
    set c | c in s :: c.author
  }

  ghost function AtRound(s: set<Certificate>, r: Round): set<Certificate> {
    set c | c in s && c.round == r
  }

  ghost predicate SlotUnique(s: set<Certificate>) {
    forall x, y {:trigger SameSlot(x, y)} :: x in s && y in s && SameSlot(x, y) ==> x == y
  }

  /** Every parent of `c` is in `u`, from the previous round, and the parents' authors hold a quorum. */
  ghost predicate QuorumParents(cm: Committee, u: set<Certificate>, c: Certificate) {
    && c.author in cm.keys
    && (forall d :: d in c.parents ==> d.round + 1 == c.round && exists y :: y in u && y.Digest() == d)
    && cm.Weight(set d | d in c.parents :: d.origin) >= cm.QuorumThreshold()
  }

  /** The guarantee of the certificate layer: one certificate per slot, each over a quorum of the round below. */
  ghost predicate GoodDag(cm: Committee, u: set<Certificate>) {
    && cm.Valid()
    && Genesis(cm) <= u
    && SlotUnique(u)
    && (forall c {:trigger QuorumParents(cm, u, c)} :: c in u && c !in Genesis(cm) ==> QuorumParents(cm, u, c))
  }

  /** `b` is `a` itself or an ancestor of one of its parents. */
  ghost predicate Reaches(u: set<Certificate>, a: Certificate, b: Certificate)
    decreases a.round
  {
    a == b || exists y :: y in u && y.round < a.round && Edge(a, y) && Reaches(u, y, b)
  }

  ghost predicate AncestorClosed(u: set<Certificate>, s: set<Certificate>) {
    forall x, y :: x in s && y in u && Edge(x, y) ==> y in s
  }

  lemma GoodUnique(cm: Committee, u: set<Certificate>)
    requires GoodDag(cm, u)
    ensures cm.Valid() && SlotUnique(u)
  {
  }

  lemma GenesisIncluded(cm: Committee, u: set<Certificate>)
    requires GoodDag(cm, u)
    ensures Genesis(cm) <= u
  {
  }

  lemma EdgeRound(cm: Committee, u: set<Certificate>, x: Certificate, y: Certificate)
    requires GoodDag(cm, u) && x in u && Edge(x, y)
    ensures y.round + 1 == x.round
  {
    assert y.Digest() in x.parents;
    assert x in Genesis(cm) || QuorumParents(cm, u, x);
  }

  lemma AuthorInCommittee(cm: Committee, u: set<Certificate>, x: Certificate)
    requires GoodDag(cm, u) && x in u
    ensures x.author in cm.keys
    ensures x.round == 0 <==> x in Genesis(cm)
  {
    if x !in Genesis(cm) {
      assert QuorumParents(cm, u, x);
      if forall d :: d in x.parents ==> false {
        cm.WeightEmpty(set d | d in x.parents :: d.origin);
      }
      var d :| d in x.parents;
      assert d.round + 1 == x.round;
    }
  }

  lemma SomeParent(cm: Committee, u: set<Certificate>, x: Certificate) returns (y: Certificate)
    requires GoodDag(cm, u) && x in u && 0 < x.round
    ensures y in u && Edge(x, y) && y.round + 1 == x.round
  {
    assert QuorumParents(cm, u, x);
    if forall d :: d in x.parents ==> false {
      cm.WeightEmpty(set d | d in x.parents :: d.origin);
    }
    var d :| d in x.parents;
    y :| y in u && y.Digest() == d;
  }

  lemma {:induction false} ReachesRound(u: set<Certificate>, a: Certificate, b: Certificate)
    requires Reaches(u, a, b)
    ensures b.round <= a.round
    ensures b.round == a.round ==> a == b
    ensures a != b ==> b in u
    decreases a.round
  {
    if a != b {
      var y :| y in u && y.round < a.round && Edge(a, y) && Reaches(u, y, b);
      ReachesRound(u, y, b);
    }
  }

  lemma {:induction false} ReachesTransitive(u: set<Certificate>, a: Certificate, b: Certificate, c: Certificate)
    requires Reaches(u, a, b) && Reaches(u, b, c)
    ensures Reaches(u, a, c)
    decreases a.round
  {
    if a != b {
      var y :| y in u && y.round < a.round && Edge(a, y) && Reaches(u, y, b);
      ReachesTransitive(u, y, b, c);
    }
  }

  /** A path down to `c` ends with an edge from a certificate of the round above. */
  lemma {:induction false} LastEdge(cm: Committee, u: set<Certificate>, a: Certificate, c: Certificate) returns (y: Certificate)
    requires GoodDag(cm, u) && a in u && Reaches(u, a, c) && c.round < a.round
    ensures y in u && y.round == c.round + 1 && Reaches(u, a, y) && Edge(y, c)
    decreases a.round
  {
    var z :| z in u && z.round < a.round && Edge(a, z) && Reaches(u, z, c);
    EdgeRound(cm, u, a, z);
    ReachesRound(u, z, c);
    if z == c {
      y := a;
    } else {
      y := LastEdge(cm, u, z, c);
    }
  }

  lemma {:induction false} ReachesInside(u: set<Certificate>, s: set<Certificate>, a: Certificate, b: Certificate)
    requires AncestorClosed(u, s) && a in s && Reaches(u, a, b)
    ensures b in s
    decreases a.round
  {
    if a != b {
      var y :| y in u && y.round < a.round && Edge(a, y) && Reaches(u, y, b);
      ReachesInside(u, s, y, b);
    }
  }

  /** The direct children of `leader`: the certificates of the next round that list it as a parent. */
  ghost function Supporters(s: set<Certificate>, leader: Certificate): set<Certificate> {
    set c | c in s && c.round == leader.round + 1 && Edge(c, leader)
  }

  /** Any certificate two rounds up lists one member of a set of next-round certificates that meets every quorum. */
  lemma ParentAmong(cm: Committee, u: set<Certificate>, c: Certificate, support: set<Certificate>, r: Round)
    returns (y: Certificate)
    requires GoodDag(cm, u) && c in u && c.round == r + 1 && support <= u
    requires forall x :: x in support ==> x.round == r
    requires cm.Weight(Authors(support)) + cm.QuorumThreshold() > cm.Total()
    ensures y in support && Edge(c, y)
  {
    assert QuorumParents(cm, u, c);
    var origins := set d | d in c.parents :: d.origin;
    var k := cm.CommonMember(origins, Authors(support));
    y :| y in support && y.author == k;
    var d :| d in c.parents && d.origin == k;
    var p :| p in u && p.Digest() == d;
    assert SameSlot(p, y);
  }

  /**
   * Anchor persistence for a set of supporters at round r that every quorum meets, all of which reach `leader`:
   * no certificate above that round can be built without `leader` in its history.
   */
  lemma {:induction false} SupportPersists(cm: Committee, u: set<Certificate>, leader: Certificate,
                                           support: set<Certificate>, r: Round, c: Certificate)
    requires GoodDag(cm, u) && support <= u
    requires forall x :: x in support ==> x.round == r && Reaches(u, x, leader)
    requires cm.Weight(Authors(support)) + cm.QuorumThreshold() > cm.Total()
    requires c in u && r + 1 <= c.round
    ensures Reaches(u, c, leader)
    decreases c.round
  {
    var y;
    if c.round == r + 1 {
      y := ParentAmong(cm, u, c, support, r);
    } else {
      y := SomeParent(cm, u, c);
      SupportPersists(cm, u, leader, support, r, y);
    }
    assert y in u && y.round < c.round && Edge(c, y) && Reaches(u, y, leader);
  }

  ghost predicate Supported(cm: Committee, s: set<Certificate>, leader: Certificate) {
    cm.Weight(Authors(Supporters(s, leader))) >= cm.ValidityThreshold()
  }

  /** A leader that f+1 certificates of the next round point at is in the history of every later certificate, at any node. */
  lemma AnchorPersistence(cm: Committee, u: set<Certificate>, s: set<Certificate>, leader: Certificate, c: Certificate)
    requires GoodDag(cm, u) && s <= u && leader in u && Supported(cm, s, leader)
    requires c in u && leader.round + 2 <= c.round
    ensures Reaches(u, c, leader)
  {
    var support := Supporters(s, leader);
    forall x | x in support
      ensures x.round == leader.round + 1 && Reaches(u, x, leader)
    {
      assert leader in u && leader.round < x.round && Edge(x, leader) && Reaches(u, leader, leader);
    }
    SupportPersists(cm, u, leader, support, leader.round + 1, c);
  }
}
