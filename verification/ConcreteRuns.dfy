/** Tools for the concrete runs that show which hypotheses the theorems need. */
module ConcreteRuns {
  import opened Collections
  import opened Committees
  import opened Dags
  import opened Engine
  import opened Retention
  import opened Commits
  import opened Steady
  import opened Anchors

  /** Memory knows each author's newest committed round. */
  lemma StandsAt(cm: Committee, s: State, committed: set<Certificate>, c: Certificate)
    requires cm.Valid() && Accounted(cm, committed, s) && c in committed
    requires forall x :: x in committed && x.author == c.author ==> x.round <= c.round
    ensures c.author in s.lastCommitted && s.lastCommitted[c.author] == c.round
  {
    hide MaxOf;
  }

  // ----- Runs that have committed nothing yet -----

  /** Deliveries without repetition are never stale. */
  lemma {:induction false} DistinctIsNeverStale(cfg: Config, u: set<Certificate>, log: seq<Certificate>)
    requires GoodDag(cfg.committee, u) && 1 <= cfg.walkStep && Causal(cfg.committee, u, log)
    requires NoRepeats(log) && forall c :: c in log ==> c !in Genesis(cfg.committee)
    ensures NeverStale(cfg, log)
    decreases |log|
  {
    if log != [] {
      var before := log[..|log| - 1];
      var c := log[|log| - 1];
      assert forall x :: x in before ==> x in log;
      DistinctIsNeverStale(cfg, u, before);
      NoDoubleCommit(cfg, u, before);
      assert c in log && c !in before;
    }
  }

  /** Until its first commit a node holds everything it received. */
  lemma QuietState(cfg: Config, u: set<Certificate>, log: seq<Certificate>)
    requires GoodDag(cfg.committee, u) && 1 <= cfg.walkStep && Causal(cfg.committee, u, log) && NeverStale(cfg, log)
    requires Run(cfg, log).s.lastCommittedRound == 0
    ensures var n := Run(cfg, log);
            && n.out == []
            && n.s.dag == Delivered(cfg.committee, log)
            && (forall k :: k in n.s.lastCommitted ==> n.s.lastCommitted[k] == 0)
  {
    hide Run, GoodDag;
    GoodUnique(cfg.committee, u);
    var n := Run(cfg, log);
    RunSound(cfg, u, log);
    NoDoubleCommit(cfg, u, log);
    var committed := Genesis(cfg.committee) + Members(n.out);
    forall k | k in n.s.lastCommitted
      ensures n.s.lastCommitted[k] == 0
    {
      AuthorRound(cfg.committee, committed, n.s, k);
    }
    if n.out != [] {
      var c := n.out[0];
      assert c in n.out && c in Members(n.out);
      CommittedBound(cfg.committee, committed, n.s, c);
      AuthorInCommittee(cfg.committee, u, c);
    }
  }

  lemma {:induction false} QuietLeaders(cfg: Config, u: set<Certificate>, log: seq<Certificate>)
    requires !cfg.dynamic && GoodDag(cfg.committee, u) && 1 <= cfg.walkStep && Causal(cfg.committee, u, log)
    requires Run(cfg, log).s.lastCommittedRound == 0
    ensures Run(cfg, log).leaders == []
    decreases |log|
  {
    hide GoodDag, Inv, Decide, CommitLeaders, LeadersToCommit, Sound;
    GoodUnique(cfg.committee, u);
    if log != [] {
      var before, c := log[..|log| - 1], log[|log| - 1];
      var n := Run(cfg, before);
      QuietStep(cfg, u, log);
      if Decide(cfg, Insert(n.s, c), c.round).Wait? {
        QuietLeaders(cfg, u, before);
      }
    }
  }

  lemma QuietStep(cfg: Config, u: set<Certificate>, log: seq<Certificate>)
    requires !cfg.dynamic && GoodDag(cfg.committee, u) && 1 <= cfg.walkStep && Causal(cfg.committee, u, log) && log != []
    requires cfg.committee.Valid()
    ensures var n, c := Run(cfg, log[..|log| - 1]), log[|log| - 1];
            var d := Decide(cfg, Insert(n.s, c), c.round);
            && !d.Skip?
            && (d.Commit? ==> 0 < Run(cfg, log).s.lastCommittedRound)
            && (d.Wait? ==> Run(cfg, log).s.lastCommittedRound == n.s.lastCommittedRound)
  {
    hide GoodDag, Inv, Decide, CommitLeaders, LeadersToCommit;
    var before, c := log[..|log| - 1], log[|log| - 1];
    var n := Run(cfg, before);
    var committed := Genesis(cfg.committee) + Members(n.out);
    RunSound(cfg, u, before);
    DeliveredStep(cfg.committee, log);
    InvInsert(cfg.committee, cfg.gcDepth, u, Delivered(cfg.committee, before), committed, n.s, c);
    SteadyCommit(cfg, u, Delivered(cfg.committee, log), n, c);
    DecidedAnchor(cfg, u, Delivered(cfg.committee, log), committed, Insert(n.s, c), c.round);
    if Decide(cfg, Insert(n.s, c), c.round).Commit? {
      DecideCommits(cfg, Insert(n.s, c), c.round);
    }
  }

  // ----- Small DAGs -----

  /** A DAG given by who has a certificate at which round and whose certificates of the round below it lists. */
  datatype Shape = Shape(cm: Committee, top: Round, present: (Key, Round) -> bool, parents: (Key, Round) -> seq<Key>) {

    function Digest(k: Key, r: Round): Digest {
      Hashed(if r == 0 then GENESIS_ID else 1, r, k)
    }

    function Cert(k: Key, r: Round): Certificate {
      if r == 0 then GenesisOf(k)
      else Certificate(k, r, 1, seq(|parents(k, r)|, i requires 0 <= i < |parents(k, r)| => Digest(parents(k, r)[i], r - 1)))
    }

    ghost function Certs(): set<Certificate> {
      set k, r | k in cm.keys && 0 <= r <= top && present(k, r) :: Cert(k, r)
    }

    ghost predicate Valid() {
      && cm.Valid()
      && (forall k :: k in cm.keys ==> present(k, 0))
      && (forall k, r :: k in cm.keys && 1 <= r <= top && present(k, r) ==> Rooted(k, r))
    }

    /** The parents of a slot are there and hold a quorum. */
    ghost predicate Rooted(k: Key, r: Round)
      requires 1 <= r
    {
      && (forall p :: p in parents(k, r) ==> p in cm.keys && present(p, r - 1))
      && cm.Weight(set p | p in parents(k, r)) >= cm.QuorumThreshold()
    }

    lemma Slots()
      ensures forall k, r :: Cert(k, r).author == k && Cert(k, r).round == r
    {
    }

    lemma CertIn(k: Key, r: Round)
      requires k in cm.keys && r <= top && present(k, r)
      ensures Cert(k, r) in Certs() && Cert(k, r).author == k && Cert(k, r).round == r && Cert(k, r).Digest() == Digest(k, r)
    {
    }

    lemma IsCert(c: Certificate)
      requires c in Certs()
      ensures c.author in cm.keys && c.round <= top && present(c.author, c.round) && c == Cert(c.author, c.round)
    {
    }

    lemma EdgeIs(k: Key, r: Round, c: Certificate)
      requires c in Certs() && 1 <= r
      ensures Edge(Cert(k, r), c) <==> c.round == r - 1 && c.author in parents(k, r)
    {
      IsCert(c);
      var x := Cert(k, r);
      if Edge(x, c) {
        var i :| 0 <= i < |x.parents| && x.parents[i] == c.Digest();
      }
      if c.round == r - 1 && c.author in parents(k, r) {
        var i :| 0 <= i < |parents(k, r)| && parents(k, r)[i] == c.author;
        assert x.parents[i] == c.Digest();
      }
    }

    lemma StepDown(v: set<Certificate>, k: Key, r: Round, p: Key)
      requires v <= Certs() && 1 <= r && p in parents(k, r) && Cert(p, r - 1) in v
      ensures Reaches(v, Cert(k, r), Cert(p, r - 1))
    {
      var y := Cert(p, r - 1);
      assert y.round == r - 1 && y.author == p && Cert(k, r).round == r;
      EdgeIs(k, r, y);
      assert Reaches(v, y, y);
    }

    lemma ParentAuthors(k: Key, r: Round)
      requires 1 <= r
      ensures (set p | p in parents(k, r)) <= set d | d in Cert(k, r).parents :: d.origin
    {
      var c := Cert(k, r);
      forall p | p in parents(k, r)
        ensures p in set d | d in c.parents :: d.origin
      {
        var i :| 0 <= i < |parents(k, r)| && parents(k, r)[i] == p;
        assert c.parents[i] in c.parents && c.parents[i].origin == p;
      }
    }

    lemma ParentsThere(k: Key, r: Round, i: nat)
      requires 1 <= r <= top && Rooted(k, r) && i < |parents(k, r)|
      ensures exists y :: y in Certs() && y.Digest() == Digest(parents(k, r)[i], r - 1)
    {
      hide Committee.Weight, Committee.QuorumThreshold, Certs, Cert;
      var p := parents(k, r)[i];
      assert p in parents(k, r);
      CertIn(p, r - 1);
      assert Cert(p, r - 1) in Certs();
    }

    lemma CertParents(k: Key, r: Round)
      requires 1 <= r
      ensures var ds := Cert(k, r).parents;
              |ds| == |parents(k, r)| && forall i :: 0 <= i < |ds| ==> ds[i] == Digest(parents(k, r)[i], r - 1)
    {
    }

    lemma Parented(k: Key, r: Round)
      requires Valid() && k in cm.keys && 1 <= r <= top && present(k, r)
      ensures QuorumParents(cm, Certs(), Cert(k, r))
    {
      var c := Cert(k, r);
      CertIn(k, r);
      CertParents(k, r);
      assert Rooted(k, r);
      hide Rooted, Certs, Cert, Committee.Weight, Committee.QuorumThreshold, Valid;
      forall d | d in c.parents
        ensures d.round + 1 == c.round && exists y :: y in Certs() && y.Digest() == d
      {
        var i :| 0 <= i < |c.parents| && c.parents[i] == d;
        ParentsThere(k, r, i);
      }
      ParentAuthors(k, r);
      cm.WeightMonotone(set p | p in parents(k, r), set d | d in c.parents :: d.origin);
    }

    lemma IsGood()
      requires Valid()
      ensures GoodDag(cm, Certs())
    {
      forall c | c in Genesis(cm)
        ensures c in Certs()
      {
        CertIn(c.author, 0);
      }
      forall c | c in Certs() && c !in Genesis(cm)
        ensures QuorumParents(cm, Certs(), c)
      {
        IsCert(c);
        Parented(c.author, c.round);
      }
      forall x, y | x in Certs() && y in Certs() && SameSlot(x, y)
        ensures x == y
      {
        IsCert(x);
        IsCert(y);
      }
    }
  }

  /** Every parent of each certificate of the log comes earlier in it or is a genesis certificate. */
  ghost predicate InOrder(shape: Shape, log: seq<Certificate>)
    decreases |log|
  {
    log == [] ||
    var c := log[|log| - 1];
    && InOrder(shape, log[..|log| - 1])
    && c in shape.Certs() && 1 <= c.round
    && (forall p :: p in shape.parents(c.author, c.round) ==>
          c.round == 1 || shape.Cert(p, c.round - 1) in log[..|log| - 1])
  }

  lemma {:induction false} InOrderIsCausal(shape: Shape, log: seq<Certificate>)
    requires shape.Valid() && InOrder(shape, log)
    ensures Causal(shape.cm, shape.Certs(), log)
    ensures forall c :: c in log ==> c !in Genesis(shape.cm)
    decreases |log|
  {
    hide Shape.Valid, Shape.Certs, Shape.Cert, Edge;
    if log != [] {
      var before := log[..|log| - 1];
      var c := log[|log| - 1];
      InOrderIsCausal(shape, before);
      shape.IsCert(c);
      forall y | y in shape.Certs() && Edge(c, y)
        ensures y in Delivered(shape.cm, before)
      {
        ParentDelivered(shape, log, y);
      }
      assert forall x :: x in log ==> x == c || x in before;
    }
  }

  lemma ParentDelivered(shape: Shape, log: seq<Certificate>, y: Certificate)
    requires InOrder(shape, log) && log != []
    requires y in shape.Certs() && Edge(log[|log| - 1], y)
    ensures y in Delivered(shape.cm, log[..|log| - 1])
  {
    hide Shape.Certs, Edge;
    var c := log[|log| - 1];
    shape.IsCert(c);
    shape.IsCert(y);
    shape.EdgeIs(c.author, c.round, y);
  }

  lemma DistinctStep(log: seq<Certificate>, c: Certificate)
    requires NoRepeats(log) && c !in log
    ensures NoRepeats(log + [c])
  {
  }

  lemma EmptyInOrder(shape: Shape)
    ensures InOrder(shape, [])
  {
  }

  lemma InOrderStep(shape: Shape, log: seq<Certificate>, k: Key, r: Round)
    requires InOrder(shape, log) && k in shape.cm.keys && 1 <= r <= shape.top && shape.present(k, r)
    requires forall p :: p in shape.parents(k, r) ==> r == 1 || shape.Cert(p, r - 1) in log
    ensures InOrder(shape, log + [shape.Cert(k, r)])
  {
    shape.CertIn(k, r);
    assert (log + [shape.Cert(k, r)])[..|log|] == log;
  }

  /** Certificates that list their author's certificate of the round below as a parent stand on their own history. */
  lemma {:induction false} SelfParented(shape: Shape, k: Key, low: Round, high: Round)
    requires k in shape.cm.keys && 1 <= low <= high <= shape.top
    requires forall r :: low <= r <= high ==> shape.present(k, r)
    requires forall r :: low < r <= high ==> k in shape.parents(k, r)
    ensures Reaches(shape.Certs(), shape.Cert(k, high), shape.Cert(k, low))
    decreases high
  {
    if low < high {
      SelfParented(shape, k, low, high - 1);
      shape.CertIn(k, high - 1);
      shape.EdgeIs(k, high, shape.Cert(k, high - 1));
    }
  }

  lemma SupportAuthors(shape: Shape, s: set<Certificate>, k: Key, r: Round)
    requires s <= shape.Certs() && k in shape.cm.keys && r <= shape.top && shape.present(k, r)
    ensures forall a :: a in Authors(Supporters(s, shape.Cert(k, r))) <==>
                        shape.Cert(a, r + 1) in s && shape.Cert(a, r + 1).round == r + 1 && k in shape.parents(a, r + 1)
  {
    shape.CertIn(k, r);
    forall a
      ensures a in Authors(Supporters(s, shape.Cert(k, r))) <==>
              shape.Cert(a, r + 1) in s && shape.Cert(a, r + 1).round == r + 1 && k in shape.parents(a, r + 1)
    {
      if a in Authors(Supporters(s, shape.Cert(k, r))) {
        var c :| c in Supporters(s, shape.Cert(k, r)) && c.author == a;
        shape.IsCert(c);
        shape.EdgeIs(a, r + 1, shape.Cert(k, r));
      }
      if shape.Cert(a, r + 1) in s && k in shape.parents(a, r + 1) {
        shape.EdgeIs(a, r + 1, shape.Cert(k, r));
        assert shape.Cert(a, r + 1) in Supporters(s, shape.Cert(k, r));
      }
    }
  }

  /** A delivery that raises the last committed round commits a leader there and outputs what `CommitLeaders` gives. */
  lemma NextCommit(cfg: Config, u: set<Certificate>, before: seq<Certificate>, c: Certificate)
    returns (s: State, leader: Certificate)
    requires !cfg.dynamic && 1 <= cfg.walkStep && GoodDag(cfg.committee, u)
    requires Causal(cfg.committee, u, before + [c])
    requires Run(cfg, before).s.lastCommittedRound < Run(cfg, before + [c]).s.lastCommittedRound
    ensures s == Insert(Run(cfg, before).s, c) && s.dag == Run(cfg, before).s.dag + {c}
    ensures var committed := Genesis(cfg.committee) + Members(Run(cfg, before).out);
            Inv(cfg.committee, cfg.gcDepth, u, Delivered(cfg.committee, before + [c]), committed, s)
    ensures leader in s.dag && leader.round == Run(cfg, before + [c]).s.lastCommittedRound
    ensures leader.author == cfg.committee.Leader(leader.round)
    ensures var r := CommitLeaders(s, OrderLeaders(cfg, s, leader), cfg.gcDepth);
            Run(cfg, before + [c]).out == Run(cfg, before).out + r.1 && Run(cfg, before + [c]).s == r.0
    ensures Run(cfg, before + [c]).leaders == Run(cfg, before).leaders + Reversed(OrderLeaders(cfg, s, leader))
  {
    hide Inv, GoodDag, Tight, CommitLeaders, OrderLeaders, Decide;
    var log := before + [c];
    assert log[..|log| - 1] == before && log[|log| - 1] == c;
    GoodUnique(cfg.committee, u);
    RunSound(cfg, u, before);
    DeliveredStep(cfg.committee, log);
    var n := Run(cfg, before);
    var committed := Genesis(cfg.committee) + Members(n.out);
    InvInsert(cfg.committee, cfg.gcDepth, u, Delivered(cfg.committee, before), committed, n.s, c);
    s := Insert(n.s, c);
    SteadyCommit(cfg, u, Delivered(cfg.committee, log), n, c);
    DecidedAnchor(cfg, u, Delivered(cfg.committee, log), committed, s, c.round);
    assert Run(cfg, log) == Deliver(cfg, n, c);
    leader := Decide(cfg, s, c.round).leader;
    DecideCommits(cfg, s, c.round);
    LeaderFound(cfg, s, c.round);
  }

  /** A delivery that can help no leader above the last committed round is only stored. */
  lemma StoredOnly(cfg: Config, before: seq<Certificate>, c: Certificate)
    requires !cfg.dynamic && cfg.committee.Valid()
    requires c.round % 2 == 0 || c.round < 3 || c.round <= Run(cfg, before).s.lastCommittedRound + 1
    ensures Run(cfg, before + [c]) == Run(cfg, before).(s := Insert(Run(cfg, before).s, c))
  {
    hide Decide, CommitLeaders, LeadersToCommit, Resolve, Run, Deliver;
    DecideWaits(cfg, Insert(Run(cfg, before).s, c), c.round);
    StoredByDeliver(cfg, Run(cfg, before), c);
    RunUnfolds(cfg, before, c);
  }

  lemma RunUnfolds(cfg: Config, before: seq<Certificate>, c: Certificate)
    requires cfg.committee.Valid()
    ensures Run(cfg, before + [c]) == Deliver(cfg, Run(cfg, before), c)
  {
    hide Deliver;
    assert (before + [c])[..|before|] == before;
  }

  lemma StoredByDeliver(cfg: Config, n: Node, c: Certificate)
    requires cfg.committee.Valid() && Decide(cfg, Insert(n.s, c), c.round).Wait?
    ensures Deliver(cfg, n, c) == n.(s := Insert(n.s, c))
  {
    hide Decide, CommitLeaders, LeadersToCommit, Resolve, Insert;
  }

  lemma LeaderFound(cfg: Config, s: State, round: Round)
    requires !cfg.dynamic && cfg.committee.Valid() && Decide(cfg, s, round).Commit?
    ensures Decide(cfg, s, round).leader.author == cfg.committee.Leader(Decide(cfg, s, round).leader.round)
  {
  }

  /** Before the first commit the search sees everything but the genesis certificates. */
  lemma AllVisible(cm: Committee, u: set<Certificate>, s: State, c: Certificate)
    requires GoodDag(cm, u) && s.dag <= u && s.lastCommitted.Keys == (set k | k in cm.keys)
    requires forall k :: k in s.lastCommitted ==> s.lastCommitted[k] == 0
    ensures c in Visible(s) <==> c in s.dag && c.round != 0
  {
    if c in s.dag {
      AuthorInCommittee(cm, u, c);
    }
  }

  lemma NeverStaleBefore(cfg: Config, before: seq<Certificate>, c: Certificate)
    requires cfg.committee.Valid() && NeverStale(cfg, before + [c])
    ensures NeverStale(cfg, before)
  {
    assert (before + [c])[..|before|] == before;
  }
}
