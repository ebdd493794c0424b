/** Normal mode: the last committed round is a function of what was delivered, not of the order it came in. */
module Steady {
  import opened Collections
  import opened Committees
  import opened Dags
  import opened Engine
  import opened Retention
  import opened Commits

  ghost predicate SupportedAt(cm: Committee, s: set<Certificate>, r: Round, leader: Certificate)
    requires cm.Valid()
  {
    leader in s && leader.author == cm.Leader(r) && leader.round == r && Supported(cm, s, leader)
  }

  /** Round `r` has a leader with f+1 direct children among the delivered certificates. */
  ghost predicate SupportedRound(cm: Committee, s: set<Certificate>, r: Round)
    requires cm.Valid()
  {
    exists leader :: SupportedAt(cm, s, r, leader)
  }

  ghost predicate AnchorRound(r: Round) {
    2 <= r && r % 2 == 0
  }

  /** `lcr` is the highest supported anchor round, 0 if there is none. */
  ghost predicate HighestSupported(cm: Committee, delivered: set<Certificate>, lcr: Round)
    requires cm.Valid()
  {
    && (lcr == 0 || (AnchorRound(lcr) && SupportedRound(cm, delivered, lcr)))
    && (forall r: Round :: AnchorRound(r) && SupportedRound(cm, delivered, r) ==> r <= lcr)
  }

  lemma LookupUnique(s: set<Certificate>, c: Certificate)
    requires SlotUnique(s) && c in s
    ensures Lookup(s, c.author, c.round) == Some(c)
  {
    var d := Lookup(s, c.author, c.round).value;
    assert SameSlot(c, d);
  }

  lemma LeaderAtIs(cm: Committee, dag: set<Certificate>, r: Round)
    requires cm.Valid()
    ensures LeaderAt(cm, dag, r).Some? ==>
              var p := LeaderAt(cm, dag, r).value;
              p in dag && p.round == r && p.author == cm.Leader(r)
  {
  }

  lemma SupportIsDelivered(cfg: Config, u: set<Certificate>, delivered: set<Certificate>, committed: set<Certificate>,
                           s: State, leader: Certificate)
    requires !cfg.dynamic && Inv(cfg.committee, cfg.gcDepth, u, delivered, committed, s)
    requires s.lastCommittedRound <= leader.round
    ensures Support(cfg, s.dag, leader.round + 1, leader) == Supporters(delivered, leader)
  {
    RecentAllRetained(cfg.committee, cfg.gcDepth, u, delivered, committed, s, leader.round);
  }

  /** In memory, a round above the last committed one has the same leader as in the delivered set. */
  lemma LeaderIsDelivered(cm: Committee, gcDepth: Round, u: set<Certificate>, delivered: set<Certificate>,
                          committed: set<Certificate>, s: State, leader: Certificate)
    requires Inv(cm, gcDepth, u, delivered, committed, s)
    requires leader in delivered && s.lastCommittedRound <= leader.round && leader.author == cm.Leader(leader.round)
    ensures LeaderAt(cm, s.dag, leader.round) == Some(leader)
  {
    RecentRetained(cm, gcDepth, u, delivered, committed, s, leader);
    LookupUnique(s.dag, leader);
  }

  /** The engine commits at an anchor round above the last committed one exactly when the delivered set supports it. */
  lemma DecidesBySupport(cfg: Config, u: set<Certificate>, delivered: set<Certificate>, committed: set<Certificate>,
                         s: State, r: Round)
    requires !cfg.dynamic && Inv(cfg.committee, cfg.gcDepth, u, delivered, committed, s)
    requires AnchorRound(r) && s.lastCommittedRound < r
    ensures Decide(cfg, s, r + 1).Commit? <==> SupportedRound(cfg.committee, delivered, r)
    ensures !Decide(cfg, s, r + 1).Commit? ==> Decide(cfg, s, r + 1).Wait?
  {
    hide Inv, Support, Supporters, FallbackAt, LeaderAt, Committee.Weight;
    var cm := cfg.committee;
    InvBasics(cm, cfg.gcDepth, u, delivered, committed, s);
    if leader :| SupportedAt(cm, delivered, r, leader) {
      LeaderIsDelivered(cm, cfg.gcDepth, u, delivered, committed, s, leader);
      SupportIsDelivered(cfg, u, delivered, committed, s, leader);
    } else {
      var found := LeaderAt(cm, s.dag, r);
      LeaderAtIs(cm, s.dag, r);
      if found.Some? {
        SupportIsDelivered(cfg, u, delivered, committed, s, found.value);
        assert !SupportedAt(cm, delivered, r, found.value);
      }
    }
  }

  /** A delivery can only turn the round right below it into a supported one. */
  lemma NewlySupported(cm: Committee, u: set<Certificate>, delivered: set<Certificate>, c: Certificate, r: Round)
    requires History(cm, u, delivered) && AnchorRound(r)
    requires c in u && forall y :: y in u && Edge(c, y) ==> y in delivered
    requires SupportedRound(cm, delivered + {c}, r) && !SupportedRound(cm, delivered, r)
    ensures c.round == r + 1
  {
    var leader :| SupportedAt(cm, delivered + {c}, r, leader);
    if c.round != r + 1 {
      assert Supporters(delivered + {c}, leader) == Supporters(delivered, leader);
      assert leader in delivered ==> SupportedAt(cm, delivered, r, leader);
      assert forall x :: x in delivered && Edge(x, leader) ==> leader in delivered;
      assert Authors(Supporters(delivered, leader)) == {};
      cm.WeightEmpty({});
      assert QuorumParents(cm, u, leader);
      cm.WeightMonotone(set d | d in leader.parents :: d.origin, set d | d in leader.parents :: d.origin);
    }
  }

  lemma {:induction false} SupportGrows(cm: Committee, s: set<Certificate>, t: set<Certificate>, r: Round)
    requires cm.Valid() && s <= t && SupportedRound(cm, s, r)
    ensures SupportedRound(cm, t, r)
  {
    var leader :| SupportedAt(cm, s, r, leader);
    cm.WeightMonotone(Authors(Supporters(s, leader)), Authors(Supporters(t, leader)));
    assert SupportedAt(cm, t, r, leader);
  }

  lemma SteadyStep(cfg: Config, u: set<Certificate>, delivered: set<Certificate>, n: Node, c: Certificate)
    requires !cfg.dynamic && 1 <= cfg.walkStep && Sound(cfg, u, delivered, n)
    requires c in u && forall y :: y in u && Edge(c, y) ==> y in delivered
    requires HighestSupported(cfg.committee, delivered, n.s.lastCommittedRound)
    ensures HighestSupported(cfg.committee, delivered + {c}, Deliver(cfg, n, c).s.lastCommittedRound)
  {
    hide Inv, Decide, CommitLeaders, SupportedRound, Deliver, History, GoodDag, Retained, Accounted, Tight;
    var cm := cfg.committee;
    var committed := Genesis(cm) + Members(n.out);
    var s := Insert(n.s, c);
    var after := delivered + {c};
    var lcr := n.s.lastCommittedRound;
    InvBasics(cm, cfg.gcDepth, u, delivered, committed, n.s);
    InvHistory(cm, cfg.gcDepth, u, delivered, committed, n.s);
    InvInsert(cm, cfg.gcDepth, u, delivered, committed, n.s, c);
    forall r: Round | AnchorRound(r) && SupportedRound(cm, after, r) && lcr < r
      ensures c.round == r + 1
    {
      NewlySupported(cm, u, delivered, c, r);
    }
    if lcr != 0 {
      SupportGrows(cm, delivered, after, lcr);
    }
    if 3 <= c.round && AnchorRound(c.round - 1) && lcr < c.round - 1 {
      DecidesBySupport(cfg, u, after, committed, s, c.round - 1);
    } else {
      DecideWaits(cfg, s, c.round);
    }
    SteadyCommit(cfg, u, after, n, c);
  }

  lemma SteadyCommit(cfg: Config, u: set<Certificate>, after: set<Certificate>, n: Node, c: Certificate)
    requires !cfg.dynamic && 1 <= cfg.walkStep && c in after
    requires Inv(cfg.committee, cfg.gcDepth, u, after, Genesis(cfg.committee) + Members(n.out), Insert(n.s, c))
    ensures Decide(cfg, Insert(n.s, c), c.round).Commit? ==> Deliver(cfg, n, c).s.lastCommittedRound == c.round - 1
    ensures Decide(cfg, Insert(n.s, c), c.round).Wait? ==> Deliver(cfg, n, c).s.lastCommittedRound == n.s.lastCommittedRound
  {
    hide Inv, CommitLeaders;
    var s := Insert(n.s, c);
    var committed := Genesis(cfg.committee) + Members(n.out);
    InvBasics(cfg.committee, cfg.gcDepth, u, after, committed, s);
    if Decide(cfg, s, c.round).Commit? {
      var leader := Decide(cfg, s, c.round).leader;
      DecideCommits(cfg, s, c.round);
      CommitSound(cfg, u, after, s, n.out, leader);
    }
  }

  lemma DecideWaits(cfg: Config, s: State, round: Round)
    requires cfg.committee.Valid() && !cfg.dynamic
    requires !(3 <= round && AnchorRound(round - 1) && s.lastCommittedRound < round - 1)
    ensures Decide(cfg, s, round).Wait?
  {
  }

  lemma InvHistory(cm: Committee, gcDepth: Round, u: set<Certificate>, delivered: set<Certificate>,
                   committed: set<Certificate>, s: State)
    requires Inv(cm, gcDepth, u, delivered, committed, s)
    ensures History(cm, u, delivered)
  {
  }

  /** After every run the last committed round is the highest supported anchor round: none is ever missed. */
  lemma {:induction false} SteadyRun(cfg: Config, u: set<Certificate>, log: seq<Certificate>)
    requires !cfg.dynamic && 1 <= cfg.walkStep && GoodDag(cfg.committee, u) && Causal(cfg.committee, u, log)
    ensures HighestSupported(cfg.committee, Delivered(cfg.committee, log), Run(cfg, log).s.lastCommittedRound)
    decreases |log|
  {
    var cm := cfg.committee;
    if log == [] {
      InvInitial(cm, cfg.gcDepth, u);
      forall r | AnchorRound(r)
        ensures !SupportedRound(cm, Delivered(cm, log), r)
      {
        assert forall x :: x in Delivered(cm, log) ==> x.round == 0;
      }
    } else {
      var before := log[..|log| - 1];
      SteadyRun(cfg, u, before);
      RunSound(cfg, u, before);
      DeliveredStep(cm, log);
      SteadyStep(cfg, u, Delivered(cm, before), Run(cfg, before), log[|log| - 1]);
    }
  }

  /** Two nodes that received the same certificates, in whatever orders, stand at the same round. */
  lemma ArrivalOrderIrrelevant(cfg: Config, u: set<Certificate>, log1: seq<Certificate>, log2: seq<Certificate>)
    requires !cfg.dynamic && 1 <= cfg.walkStep && GoodDag(cfg.committee, u)
    requires Causal(cfg.committee, u, log1) && Causal(cfg.committee, u, log2)
    requires Members(log1) == Members(log2)
    ensures Run(cfg, log1).s.lastCommittedRound == Run(cfg, log2).s.lastCommittedRound
  {
    SteadyRun(cfg, u, log1);
    SteadyRun(cfg, u, log2);
    var r1 := Run(cfg, log1).s.lastCommittedRound;
    var r2 := Run(cfg, log2).s.lastCommittedRound;
    assert AnchorRound(r1) || r1 == 0;
    assert AnchorRound(r2) || r2 == 0;
  }
}
