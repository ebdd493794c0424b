/** The backward walk over earlier leaders: which supported anchors it finds, and what two nodes then agree on. */
module Anchors {
  import opened Collections
  import opened Committees
  import opened Dags
  import opened Engine
  import opened Retention
  import opened Commits
  import opened Steady
  import opened Agreement

  lemma LinkedInFull(cm: Committee, u: set<Certificate>, x: Certificate, y: Certificate)
    requires GoodDag(cm, u) && x in u && y in u
    ensures Linked(u, x, y) <==> Reaches(u, x, y)
  {
    LinkedOfPruned(cm, u, u, u, x, y);
  }

  ghost predicate AllAtLeast(rounds: seq<Round>, low: Round) {
    forall r :: r in rounds ==> low <= r
  }

  /**
   * The walk depends on the leader's causal history alone: over a node's pruned memory it meets the same leaders as
   * over the DAG of all certificates, including those the node never received.
   */
  lemma {:induction false} WalkOfPruned(cm: Committee, gcDepth: Round, u: set<Certificate>, delivered: set<Certificate>,
                                        committed: set<Certificate>, s: State, rounds: seq<Round>, x: Certificate)
    requires Inv(cm, gcDepth, u, delivered, committed, s) && cm.Valid()
    requires x in delivered && AllAtLeast(rounds, s.lastCommittedRound)
    ensures Walk(cm, s.dag, rounds, x) == Walk(cm, u, rounds, x)
    decreases |rounds|
  {
    hide Inv, Linked;
    if rounds != [] {
      assert rounds[0] in rounds && forall r :: r in rounds[1..] ==> r in rounds;
      InvBasics(cm, gcDepth, u, delivered, committed, s);
      InvHistory(cm, gcDepth, u, delivered, committed, s);
      var r := rounds[0];
      var p := LeaderAt(cm, u, r);
      if p.Some? && p.value in delivered {
        LookupUnique(u, p.value);
        LeaderIsDelivered(cm, gcDepth, u, delivered, committed, s, p.value);
        LinkedIsReachable(cm, gcDepth, u, delivered, committed, s, x, p.value);
        LinkedInFull(cm, u, x, p.value);
        WalkOfPruned(cm, gcDepth, u, delivered, committed, s, rounds[1..], p.value);
      } else if p.Some? {
        LookupUnique(u, p.value);
        LinkedInFull(cm, u, x, p.value);
        if Reaches(u, x, p.value) {
          ReachesInside(u, delivered, x, p.value);
        }
        NotInMemory(u, delivered, s.dag, p.value);
      }
      WalkOfPruned(cm, gcDepth, u, delivered, committed, s, rounds[1..], x);
    }
  }

  lemma NotInMemory(u: set<Certificate>, delivered: set<Certificate>, dag: set<Certificate>, p: Certificate)
    requires SlotUnique(u) && dag <= delivered <= u && p in u && p !in delivered
    ensures Lookup(dag, p.author, p.round) == None
  {
    forall c | c in dag && c.author == p.author && c.round == p.round
      ensures false
    {
      assert SameSlot(c, p);
    }
  }

  // ----- Which supported anchors a walk visits -----

  ghost predicate Anchor(cm: Committee, u: set<Certificate>, leader: Certificate)
    requires cm.Valid()
  {
    SupportedAt(cm, u, leader.round, leader)
  }

  lemma WalkAtAnchor(cm: Committee, u: set<Certificate>, anchor: Certificate, to: Round, x: Certificate)
    requires GoodDag(cm, u) && Anchor(cm, u, anchor) && x in u && anchor.round + 2 <= x.round && to <= anchor.round
    ensures Walk(cm, u, RoundsDown(anchor.round, to), x) ==
            Walk(cm, u, RoundsDown(anchor.round, anchor.round + 2), x) + [anchor]
            + Walk(cm, u, RoundsDown(anchor.round - 2, to), anchor)
  {
    hide GoodDag, Anchor, Linked, LeaderAt, Reaches, SlotUnique, Walk, RoundsDown;
    GoodUnique(cm, u);
    AnchorFound(cm, u, anchor, x);
    WalkUnfold(cm, u, anchor.round, to, x);
    WalkStops(cm, u, anchor.round, anchor.round + 2, x);
    Prepend([], [], anchor, Walk(cm, u, RoundsDown(anchor.round - 2, to), anchor));
  }

  /** A walk on the anchor's parity that starts high enough stops at the anchor and goes on from there. */
  lemma {:induction false} WalkMeetsAnchor(cm: Committee, u: set<Certificate>, anchor: Certificate,
                                           from: int, to: Round, x: Certificate)
    requires GoodDag(cm, u) && Anchor(cm, u, anchor) && x in u && anchor.round + 2 <= x.round
    requires to <= anchor.round <= from && (from - anchor.round) % 2 == 0
    ensures Walk(cm, u, RoundsDown(from, to), x) ==
            Walk(cm, u, RoundsDown(from, anchor.round + 2), x) + [anchor] + Walk(cm, u, RoundsDown(anchor.round - 2, to), anchor)
    decreases from
  {
    hide GoodDag, Anchor, Linked, LeaderAt, Reaches, SlotUnique, Walk, RoundsDown;
    GoodUnique(cm, u);
    if from == anchor.round {
      WalkAtAnchor(cm, u, anchor, to, x);
    } else {
      assert anchor.round + 2 <= from;
      AnchorBasics(cm, u, anchor);
      LeaderAtIs(cm, u, from);
      WalkUnfold(cm, u, from, to, x);
      WalkUnfold(cm, u, from, anchor.round + 2, x);
      var p := LeaderAt(cm, u, from);
      if p.Some? && Linked(u, x, p.value) {
        WalkMeetsAnchor(cm, u, anchor, from - 2, to, p.value);
        Prepend([p.value], Walk(cm, u, RoundsDown(from - 2, anchor.round + 2), p.value), anchor,
                Walk(cm, u, RoundsDown(anchor.round - 2, to), anchor));
      } else {
        WalkMeetsAnchor(cm, u, anchor, from - 2, to, x);
      }
    }
  }

  lemma Prepend(front: seq<Certificate>, head: seq<Certificate>, anchor: Certificate, tail: seq<Certificate>)
    ensures front + (head + [anchor] + tail) == front + head + [anchor] + tail
    ensures front == [] && head == [] ==> front + head + [anchor] + tail == [anchor] + tail && head + [anchor] + tail == [anchor] + tail
  {
  }

  lemma WalkUnfold(cm: Committee, u: set<Certificate>, from: int, to: Round, x: Certificate)
    requires cm.Valid() && to <= from
    ensures var p := LeaderAt(cm, u, from);
            Walk(cm, u, RoundsDown(from, to), x) ==
            if p.Some? && Linked(u, x, p.value) then [p.value] + Walk(cm, u, RoundsDown(from - 2, to), p.value)
            else Walk(cm, u, RoundsDown(from - 2, to), x)
  {
    var rounds := RoundsDown(from, to);
    assert rounds[0] == from && rounds[1..] == RoundsDown(from - 2, to);
  }

  lemma WalkStops(cm: Committee, u: set<Certificate>, from: int, to: Round, x: Certificate)
    requires cm.Valid() && from < to
    ensures Walk(cm, u, RoundsDown(from, to), x) == []
  {
  }

  lemma AnchorFound(cm: Committee, u: set<Certificate>, anchor: Certificate, x: Certificate)
    requires GoodDag(cm, u) && Anchor(cm, u, anchor) && x in u && anchor.round + 2 <= x.round
    ensures LeaderAt(cm, u, anchor.round) == Some(anchor) && Linked(u, x, anchor)
  {
    hide GoodDag, Linked;
    GoodUnique(cm, u);
    LookupUnique(u, anchor);
    AnchorReached(cm, u, anchor, x);
    LinkedInFull(cm, u, x, anchor);
  }

  lemma AnchorBasics(cm: Committee, u: set<Certificate>, anchor: Certificate)
    requires cm.Valid() && Anchor(cm, u, anchor)
    ensures anchor in u && anchor.author == cm.Leader(anchor.round) && Supported(cm, u, anchor)
  {
  }

  lemma AnchorReached(cm: Committee, u: set<Certificate>, anchor: Certificate, x: Certificate)
    requires GoodDag(cm, u) && Anchor(cm, u, anchor) && x in u && anchor.round + 2 <= x.round
    ensures Reaches(u, x, anchor)
  {
    AnchorPersistence(cm, u, u, anchor, x);
  }

  /**
   * The exact reach of the walk: of the supported anchors between the last committed round and the leader, it returns
   * those whose distance to the leader has the parity of the walk's first step, and no other.
   */
  lemma WalkVisitsByParity(cfg: Config, u: set<Certificate>, delivered: set<Certificate>, committed: set<Certificate>,
                           s: State, leader: Certificate, anchor: Certificate)
    requires Inv(cfg.committee, cfg.gcDepth, u, delivered, committed, s) && 1 <= cfg.walkStep
    requires leader in delivered && Anchor(cfg.committee, u, anchor)
    requires s.lastCommittedRound + 2 <= anchor.round && anchor.round + 2 <= leader.round
    ensures anchor in OrderLeaders(cfg, s, leader) <==>
            cfg.walkStep <= leader.round - anchor.round && (leader.round - anchor.round - cfg.walkStep) % 2 == 0
  {
    hide Inv, Anchor, Walk, RoundsDown, GoodDag;
    var cm := cfg.committee;
    InvBasics(cm, cfg.gcDepth, u, delivered, committed, s);
    AnchorBasics(cm, u, anchor);
    var from := leader.round - cfg.walkStep;
    var low := s.lastCommittedRound + 2;
    var rounds := RoundsDown(from, low);
    RoundsDownExact(from, low);
    var visited := anchor.round <= from && (from - anchor.round) % 2 == 0;
    assert anchor.round in rounds <==> visited;
    var walked := Walk(cm, s.dag, rounds, leader);
    WalkDescends(cm, s.dag, rounds, leader);
    if visited {
      WalkOfPruned(cm, cfg.gcDepth, u, delivered, committed, s, rounds, leader);
      WalkMeetsAnchor(cm, u, anchor, from, low, leader);
      var head := Walk(cm, u, RoundsDown(from, anchor.round + 2), leader);
      assert walked[|head|] == anchor;
    }
    assert anchor in walked <==> visited;
    assert OrderLeaders(cfg, s, leader) == [leader] + walked;
  }

  /** The code's walk starts next to the leader, so between two anchor rounds it returns no anchor at all, supported or not. */
  lemma CodeWalkSkipsAnchors(cfg: Config, s: State, leader: Certificate)
    requires cfg.committee.Valid() && cfg.walkStep == 1 && AnchorRound(leader.round)
    ensures forall x :: x in OrderLeaders(cfg, s, leader) && x != leader ==> x.round % 2 == 1
  {
    hide Walk, RoundsDown;
    var rounds := RoundsDown(leader.round - 1, s.lastCommittedRound + 2);
    RoundsDownExact(leader.round - 1, s.lastCommittedRound + 2);
    WalkDescends(cfg.committee, s.dag, rounds, leader);
    forall x | x in OrderLeaders(cfg, s, leader) && x != leader
      ensures x.round % 2 == 1
    {
      assert x.round in rounds;
    }
  }

  // ----- With the walk on anchor rounds, nodes agree -----

  /** The anchors ordered up to `leader`, latest first, as the walk over the whole DAG finds them. */
  ghost function Chain(cm: Committee, u: set<Certificate>, leader: Certificate): seq<Certificate>
    requires cm.Valid()
  {
    [leader] + Walk(cm, u, RoundsDown(leader.round - 2, 2), leader)
  }

  /** The chain of a later anchor passes through every earlier supported one. */
  lemma ChainSplits(cm: Committee, u: set<Certificate>, early: Certificate, late: Certificate)
    requires GoodDag(cm, u) && Anchor(cm, u, early) && late in u
    requires AnchorRound(early.round) && AnchorRound(late.round) && early.round < late.round
    ensures Chain(cm, u, late) ==
            [late] + Walk(cm, u, RoundsDown(late.round - 2, early.round + 2), late) + Chain(cm, u, early)
  {
    hide GoodDag, Anchor, Walk, RoundsDown;
    GoodUnique(cm, u);
    WalkMeetsAnchor(cm, u, early, late.round - 2, 2, late);
    var head := Walk(cm, u, RoundsDown(late.round - 2, early.round + 2), late);
    var tail := Walk(cm, u, RoundsDown(early.round - 2, 2), early);
    assert [late] + (head + [early] + tail) == [late] + head + ([early] + tail);
  }

  /** A node has committed exactly the chain of the anchor at its last committed round. */
  ghost predicate FollowsChain(cm: Committee, u: set<Certificate>, n: Node)
    requires cm.Valid()
  {
    if n.s.lastCommittedRound == 0 then n.leaders == []
    else exists leader :: IsTip(cm, u, n.s.lastCommittedRound, leader) && n.leaders == Reversed(Chain(cm, u, leader))
  }

  ghost predicate IsTip(cm: Committee, u: set<Certificate>, lcr: Round, leader: Certificate)
    requires cm.Valid()
  {
    AnchorRound(lcr) && leader.round == lcr && Anchor(cm, u, leader)
  }

  lemma ChainExtends(cfg: Config, u: set<Certificate>, delivered: set<Certificate>, s: State, n: Node, leader: Certificate)
    requires !cfg.dynamic && cfg.walkStep == 2 && cfg.committee.Valid() && FollowsChain(cfg.committee, u, n)
    requires Inv(cfg.committee, cfg.gcDepth, u, delivered, Genesis(cfg.committee) + Members(n.out), s)
    requires s.lastCommittedRound == n.s.lastCommittedRound < leader.round && leader in delivered && AnchorRound(leader.round)
    ensures n.leaders + Reversed(LeadersToCommit(cfg, s, leader)) == Reversed(Chain(cfg.committee, u, leader))
  {
    hide Inv, Anchor, Walk;
    var cm := cfg.committee;
    var lcr := s.lastCommittedRound;
    var committed := Genesis(cm) + Members(n.out);
    InvBasics(cm, cfg.gcDepth, u, delivered, committed, s);
    var rounds := RoundsDown(leader.round - 2, lcr + 2);
    RoundsDownExact(leader.round - 2, lcr + 2);
    WalkOfPruned(cm, cfg.gcDepth, u, delivered, committed, s, rounds, leader);
    var ls := [leader] + Walk(cm, u, rounds, leader);
    if lcr != 0 {
      var early :| IsTip(cm, u, lcr, early) && n.leaders == Reversed(Chain(cm, u, early));
      ChainSplits(cm, u, early, leader);
      ReversedSplit(ls, Chain(cm, u, early));
    } else {
      assert [] + Reversed(ls) == Reversed(ls);
    }
  }

  lemma DeliverFollowsChain(cfg: Config, u: set<Certificate>, delivered: set<Certificate>, n: Node, c: Certificate)
    requires !cfg.dynamic && cfg.walkStep == 2 && Sound(cfg, u, delivered, n) && FollowsChain(cfg.committee, u, n)
    requires c in u && forall y :: y in u && Edge(c, y) ==> y in delivered
    ensures FollowsChain(cfg.committee, u, Deliver(cfg, n, c))
  {
    hide Inv, Decide, CommitLeaders, Chain, LeadersToCommit, Anchor;
    var cm := cfg.committee;
    var committed := Genesis(cm) + Members(n.out);
    var s := Insert(n.s, c);
    var after := delivered + {c};
    InvBasics(cm, cfg.gcDepth, u, delivered, committed, n.s);
    InvInsert(cm, cfg.gcDepth, u, delivered, committed, n.s, c);
    DecidedAnchor(cfg, u, after, committed, s, c.round);
    match Decide(cfg, s, c.round)
    case Wait =>
    case Skip(r) =>
    case Commit(leader) =>
      ChainExtends(cfg, u, after, s, n, leader);
      CommitSound(cfg, u, after, s, n.out, leader);
      assert IsTip(cm, u, leader.round, leader);
  }

  lemma DecidedAnchor(cfg: Config, u: set<Certificate>, delivered: set<Certificate>, committed: set<Certificate>,
                      s: State, round: Round)
    requires !cfg.dynamic && Inv(cfg.committee, cfg.gcDepth, u, delivered, committed, s)
    ensures !Decide(cfg, s, round).Skip?
    ensures Decide(cfg, s, round).Commit? ==>
              var leader := Decide(cfg, s, round).leader;
              leader in delivered && s.lastCommittedRound < leader.round && AnchorRound(leader.round) && Anchor(cfg.committee, u, leader)
  {
    hide Inv, Supporters, Support;
    InvBasics(cfg.committee, cfg.gcDepth, u, delivered, committed, s);
    var d := Decide(cfg, s, round);
    if d.Commit? {
      DecideCommits(cfg, s, round);
      SupportIsDelivered(cfg, u, delivered, committed, s, d.leader);
      assert SupportedAt(cfg.committee, delivered, d.leader.round, d.leader);
      AnchorInFull(cfg.committee, u, delivered, d.leader);
    }
  }

  lemma AnchorInFull(cm: Committee, u: set<Certificate>, delivered: set<Certificate>, leader: Certificate)
    requires cm.Valid() && delivered <= u && SupportedAt(cm, delivered, leader.round, leader)
    ensures Anchor(cm, u, leader)
  {
    cm.WeightMonotone(Authors(Supporters(delivered, leader)), Authors(Supporters(u, leader)));
  }

  lemma {:induction false} RunFollowsChain(cfg: Config, u: set<Certificate>, log: seq<Certificate>)
    requires !cfg.dynamic && cfg.walkStep == 2 && GoodDag(cfg.committee, u) && Causal(cfg.committee, u, log)
    ensures FollowsChain(cfg.committee, u, Run(cfg, log))
    decreases |log|
  {
    if log == [] {
      InvInitial(cfg.committee, cfg.gcDepth, u);
    } else {
      var before := log[..|log| - 1];
      RunFollowsChain(cfg, u, before);
      RunSound(cfg, u, before);
      DeliverFollowsChain(cfg, u, Delivered(cfg.committee, before), Run(cfg, before), log[|log| - 1]);
    }
  }

  /** Two anchors of the same DAG have chains one of which ends in the other. */
  lemma ChainsComparable(cm: Committee, u: set<Certificate>, a: Certificate, b: Certificate)
    requires GoodDag(cm, u) && Anchor(cm, u, a) && Anchor(cm, u, b)
    requires AnchorRound(a.round) && AnchorRound(b.round) && a.round <= b.round
    ensures Reversed(Chain(cm, u, a)) <= Reversed(Chain(cm, u, b))
  {
    if a.round == b.round {
      assert SameSlot(a, b);
    } else {
      ChainSplits(cm, u, a, b);
      ReversedSplit([b] + Walk(cm, u, RoundsDown(b.round - 2, a.round + 2), b), Chain(cm, u, a));
    }
  }

  /** With the walk on anchor rounds the committed leaders of any two nodes never diverge, whatever each has received. */
  lemma AnchorWalkAgreesOnLeaders(cfg: Config, u: set<Certificate>, log1: seq<Certificate>, log2: seq<Certificate>)
    requires !cfg.dynamic && cfg.walkStep == 2 && GoodDag(cfg.committee, u)
    requires Causal(cfg.committee, u, log1) && Causal(cfg.committee, u, log2)
    ensures Run(cfg, log1).leaders <= Run(cfg, log2).leaders || Run(cfg, log2).leaders <= Run(cfg, log1).leaders
  {
    hide GoodDag, Run, Chain, Anchor;
    GoodUnique(cfg.committee, u);
    RunFollowsChain(cfg, u, log1);
    RunFollowsChain(cfg, u, log2);
    var n1 := Run(cfg, log1);
    var n2 := Run(cfg, log2);
    if n1.s.lastCommittedRound != 0 && n2.s.lastCommittedRound != 0 {
      var a :| IsTip(cfg.committee, u, n1.s.lastCommittedRound, a) && n1.leaders == Reversed(Chain(cfg.committee, u, a));
      var b :| IsTip(cfg.committee, u, n2.s.lastCommittedRound, b) && n2.leaders == Reversed(Chain(cfg.committee, u, b));
      if a.round <= b.round {
        ChainsComparable(cfg.committee, u, a, b);
      } else {
        ChainsComparable(cfg.committee, u, b, a);
      }
    }
  }

  /** ... and neither do their outputs: total order. */
  lemma AnchorWalkTotalOrder(cfg: Config, u: set<Certificate>, log1: seq<Certificate>, log2: seq<Certificate>)
    requires !cfg.dynamic && cfg.walkStep == 2 && GoodDag(cfg.committee, u) && cfg.committee.Valid()
    requires Causal(cfg.committee, u, log1) && IntactRun(cfg, u, log1)
    requires Causal(cfg.committee, u, log2) && IntactRun(cfg, u, log2)
    ensures Run(cfg, log1).out <= Run(cfg, log2).out || Run(cfg, log2).out <= Run(cfg, log1).out
  {
    hide GoodDag, Causal, IntactRun, Run;
    AnchorWalkAgreesOnLeaders(cfg, u, log1, log2);
    if Run(cfg, log1).leaders <= Run(cfg, log2).leaders {
      SameLeadersSameOutput(cfg, u, log1, log2);
    } else {
      SameLeadersSameOutput(cfg, u, log2, log1);
    }
  }
}
