/**
 * Two honest nodes, the same valid DAG, nothing delivered twice, every author on top of its own history: the walk the
 * code takes still makes them output conflicting sequences.
 */
module Divergence {
  import opened Collections
  import opened Committees
  import opened Dags
  import opened Engine
  import opened Retention
  import opened SubDags
  import opened Commits
  import opened Steady
  import opened Agreement
  import opened Peaks
  import opened ConcreteRuns

  // Stakes 2, 1, 1: quorum 3, validity 2. Leaders: 2 at round 2, 0 at round 3, 1 at round 4.
  const CM := Committee([0, 1, 2], map[0 := 2, 1 := 1, 2 := 1], map[])

  // Authority 2 takes part in rounds 2 and 3 only; its certificate of round 2 is the leader that one node commits.
  predicate Present(k: Key, r: Round) {
    k < 3 && (r == 0 || (r == 1 && k < 2) || r == 2 || r == 3 || (r == 4 && k < 2) || (r == 5 && k == 0))
  }

  function ParentKeys(k: Key, r: Round): seq<Key> {
    if r == 3 && k == 1 then [0, 1, 2] else if r == 3 && k == 2 then [0, 2] else [0, 1]
  }

  const SHAPE := Shape(CM, 5, Present, ParentKeys)

  function C(k: Key, r: Round): Certificate {
    SHAPE.Cert(k, r)
  }

  // The second supporter of the round-2 leader reaches the first node only.
  const EARLY: seq<Certificate> := [C(0, 1)] + [C(1, 1)] + [C(0, 2)] + [C(1, 2)] + [C(2, 2)]
  const COMMON: seq<Certificate> := EARLY + [C(0, 3)] + [C(1, 3)]
  const LOG1: seq<Certificate> := COMMON + [C(2, 3)]
  const LOG2: seq<Certificate> := COMMON + [C(0, 4)] + [C(1, 4)]  + [C(0, 5)]

  lemma WeightIs(names: set<Key>)
    ensures CM.Valid()
    ensures CM.Weight(names) == (if 0 in names then 2 else 0) + (if 1 in names then 1 else 0) + (if 2 in names then 1 else 0)
    ensures CM.QuorumThreshold() == 3 && CM.ValidityThreshold() == 2
  {
    CM.OfThree(0, 1, 2, names);
  }

  lemma SlotRooted(k: Key, r: Round)
    requires k in CM.keys && 1 <= r <= 5 && Present(k, r)
    ensures SHAPE.Rooted(k, r)
  {
    hide Committee.Weight, Committee.QuorumThreshold;
    WeightIs(set p | p in ParentKeys(k, r));
    assert ParentKeys(k, r)[0] == 0;
  }

  lemma ShapeIsValid()
    ensures SHAPE.Valid()
  {
    hide Shape.Rooted, ParentKeys, Committee.Weight, Committee.QuorumThreshold;
    forall k, r | k in CM.keys && 1 <= r <= 5 && Present(k, r)
      ensures SHAPE.Rooted(k, r)
    {
      SlotRooted(k, r);
    }
    WeightIs({});
  }

  lemma DagIsOwnHistory()
    ensures OwnHistory(SHAPE.Certs())
  {
    forall a, b | a in SHAPE.Certs() && b in SHAPE.Certs() && a.author == b.author && 1 <= a.round < b.round
      ensures Reaches(SHAPE.Certs(), b, a)
    {
      SHAPE.IsCert(a);
      SHAPE.IsCert(b);
      SelfParented(SHAPE, a.author, a.round, b.round);
    }
  }

  lemma EarlyInOrder()
    ensures InOrder(SHAPE, EARLY)
  {
    hide InOrder, Shape.Cert, Shape.Certs;
    EmptyInOrder(SHAPE);
    InOrderStep(SHAPE, [], 0, 1);
    var l1 := [C(0, 1)];
    assert [] + l1 == l1;
    InOrderStep(SHAPE, l1, 1, 1);
    var l2 := l1 + [C(1, 1)];
    assert l2[0] == C(0, 1) && l2[1] == C(1, 1);
    InOrderStep(SHAPE, l2, 0, 2);
    InOrderStep(SHAPE, l2 + [C(0, 2)], 1, 2);
    InOrderStep(SHAPE, l2 + [C(0, 2)] + [C(1, 2)], 2, 2);
  }

  lemma CommonInOrder()
    ensures InOrder(SHAPE, COMMON)
  {
    hide InOrder, Shape.Cert, Shape.Certs;
    EarlyInOrder();
    assert EARLY[2] == C(0, 2) && EARLY[3] == C(1, 2) && EARLY[4] == C(2, 2);
    InOrderStep(SHAPE, EARLY, 0, 3);
    InOrderStep(SHAPE, EARLY + [C(0, 3)], 1, 3);
  }

  lemma FourthRoundInOrder()
    ensures InOrder(SHAPE, COMMON + [C(0, 4)]) && InOrder(SHAPE, COMMON + [C(0, 4)] + [C(1, 4)])
  {
    hide InOrder, Shape.Cert, Shape.Certs;
    CommonInOrder();
    assert COMMON[5] == C(0, 3) && COMMON[6] == C(1, 3);
    InOrderStep(SHAPE, COMMON, 0, 4);
    var l := COMMON + [C(0, 4)];
    assert l[5] == C(0, 3) && l[6] == C(1, 3);
    InOrderStep(SHAPE, l, 1, 4);
  }

  lemma LogsInOrder()
    ensures InOrder(SHAPE, LOG1) && InOrder(SHAPE, LOG2)
    ensures InOrder(SHAPE, COMMON + [C(0, 4)] + [C(1, 4)])
  {
    hide InOrder, Shape.Cert, Shape.Certs;
    CommonInOrder();
    assert COMMON[2] == C(0, 2) && COMMON[4] == C(2, 2);
    InOrderStep(SHAPE, COMMON, 2, 3);
    FourthRoundInOrder();
    var m := COMMON + [C(0, 4)] + [C(1, 4)];
    assert m[7] == C(0, 4) && m[8] == C(1, 4);
    InOrderStep(SHAPE, m, 0, 5);
  }

  lemma CommonDistinct()
    ensures NoRepeats(COMMON)
  {
    hide Shape.Cert, NoRepeats;
    SHAPE.Slots();
    DistinctOne(C(0, 1));
    DistinctStep([C(0, 1)], C(1, 1));
    DistinctStep([C(0, 1)] + [C(1, 1)], C(0, 2));
    DistinctStep([C(0, 1)] + [C(1, 1)] + [C(0, 2)], C(1, 2));
    DistinctStep([C(0, 1)] + [C(1, 1)] + [C(0, 2)] + [C(1, 2)], C(2, 2));
    DistinctStep(EARLY, C(0, 3));
    DistinctStep(EARLY + [C(0, 3)], C(1, 3));
  }

  lemma LogsDistinct()
    ensures NoRepeats(LOG1) && NoRepeats(LOG2) && NoRepeats(COMMON) && NoRepeats(COMMON + [C(0, 4)] + [C(1, 4)])
  {
    hide Shape.Cert, NoRepeats;
    SHAPE.Slots();
    CommonDistinct();
    DistinctStep(COMMON, C(2, 3));
    DistinctStep(COMMON, C(0, 4));
    DistinctStep(COMMON + [C(0, 4)], C(1, 4));
    DistinctStep(COMMON + [C(0, 4)] + [C(1, 4)], C(0, 5));
  }

  lemma DistinctOne(c: Certificate)
    ensures NoRepeats([c])
  {
  }

  const BEFORE2: seq<Certificate> := COMMON + [C(0, 4)] + [C(1, 4)]

  /** What each node has of the two leaders' support. */
  lemma WhoSupports(log: seq<Certificate>, k: Key, r: Round)
    requires OneOfThem(log)
    requires Members(log) <= SHAPE.Certs() && Genesis(CM) <= SHAPE.Certs()
    requires (k == 2 && r == 2) || (k == 1 && r == 4)
    ensures Authors(Supporters(Delivered(CM, log), C(k, r))) ==
            if r == 4 then if log == LOG2 then {0} else {}
            else if log == LOG1 then {1, 2} else {1}
  {
    hide Shape.Cert, Shape.Certs, NoRepeats, Supporters;
    SHAPE.Slots();
    SupportAuthors(SHAPE, Delivered(CM, log), k, r);
    var authors := Authors(Supporters(Delivered(CM, log), C(k, r)));
    forall a
      ensures a in authors <==> C(a, r + 1) in log && k in ParentKeys(a, r + 1)
    {
    }
  }

  ghost predicate OneOfThem(log: seq<Certificate>) {
    log == COMMON || log == LOG1 || log == BEFORE2 || log == LOG2
  }

  lemma Setting(log: seq<Certificate>)
    requires InOrder(SHAPE, log)
    ensures CM.Valid() && GoodDag(CM, SHAPE.Certs()) && Causal(CM, SHAPE.Certs(), log)
    ensures Members(log) <= SHAPE.Certs() && Genesis(CM) <= SHAPE.Certs()
  {
    ShapeIsValid();
    WeightIs({});
    SHAPE.IsGood();
    InOrderIsCausal(SHAPE, log);
    CausalInside(CM, SHAPE.Certs(), log);
  }

  lemma IsLeaderCert(log: seq<Certificate>, r: Round, leader: Certificate)
    requires Members(log) <= SHAPE.Certs() && Genesis(CM) <= SHAPE.Certs() && CM.Valid()
    requires AnchorRound(r) && leader in Delivered(CM, log) && leader.round == r && leader.author == CM.Leader(r)
    ensures r <= 5 && leader == C(leader.author, r)
  {
    hide Shape.Cert, Shape.Certs;
    SHAPE.IsCert(leader);
  }

  lemma LeaderPresent(log: seq<Certificate>, r: Round)
    requires (r == 2 && log == LOG1) || (r == 4 && log == LOG2)
    ensures C(if r == 2 then 2 else 1, r) in log
  {
    hide Shape.Cert;
  }

  lemma SupportOf(log: seq<Certificate>, r: Round)
    requires OneOfThem(log) && AnchorRound(r) && CM.Valid()
    requires Members(log) <= SHAPE.Certs() && Genesis(CM) <= SHAPE.Certs()
    ensures SupportedRound(CM, Delivered(CM, log), r) <==> (r == 2 && log == LOG1) || (r == 4 && log == LOG2)
  {
    hide Shape.Cert, Shape.Certs, Supported;
    var s := Delivered(CM, log);
    if leader :| SupportedAt(CM, s, r, leader) {
      IsLeaderCert(log, r, leader);
      LeaderSupport(log, leader.author, r);
    }
    if (r == 2 && log == LOG1) || (r == 4 && log == LOG2) {
      LeaderIsKey(r);
      var k := if r == 2 then 2 else 1;
      LeaderPresent(log, r);
      LeaderSupport(log, k, r);
      SHAPE.Slots();
      assert SupportedAt(CM, s, r, C(k, r));
    }
  }

  lemma LeaderIsKey(r: Round)
    requires CM.Valid()
    ensures CM.Leader(2) == 2 && CM.Leader(3) == 0 && CM.Leader(4) == 1
  {
  }

  lemma LeaderSupport(log: seq<Certificate>, k: Key, r: Round)
    requires OneOfThem(log)
    requires Members(log) <= SHAPE.Certs() && Genesis(CM) <= SHAPE.Certs() && CM.Valid()
    requires AnchorRound(r) && r <= 5 && k == CM.Leader(r)
    ensures k == if r == 2 then 2 else 1
    ensures Supported(CM, Delivered(CM, log), C(k, r)) <==> (r == 2 && log == LOG1) || (r == 4 && log == LOG2)
  {
    hide Supporters, Shape.Cert, Shape.Certs;
    WhoSupports(log, k, r);
    WeightIs({});
    WeightIs({0});
    WeightIs({1});
    WeightIs({1, 2});
    assert COMMON != LOG1 by { assert |LOG1| == |COMMON| + 1; }
    assert BEFORE2 != LOG2 by { assert |LOG2| == |BEFORE2| + 1; }
  }

  function Code(gcDepth: Round): Config {
    Config(CM, gcDepth, false, 1)
  }

  lemma RoundAfter(gcDepth: Round, log: seq<Certificate>)
    requires OneOfThem(log) && InOrder(SHAPE, log)
    ensures CM.Valid()
    ensures Run(Code(gcDepth), log).s.lastCommittedRound == if log == LOG1 then 2 else if log == LOG2 then 4 else 0
  {
    hide Run, GoodDag, SupportedRound, InOrder;
    Setting(log);
    SteadyRun(Code(gcDepth), SHAPE.Certs(), log);
    forall r: Round | AnchorRound(r)
      ensures SupportedRound(CM, Delivered(CM, log), r) <==> (r == 2 && log == LOG1) || (r == 4 && log == LOG2)
    {
      SupportOf(log, r);
    }
    assert |LOG1| == 8 && |LOG2| == 10;
    assert AnchorRound(2) && AnchorRound(4);
  }

  /** Inside the visible certificates a path from `C(k, r)` goes through one of the parents it lists. */
  lemma VisibleStep(v: set<Certificate>, k: Key, r: Round, c: Certificate) returns (p: Key)
    requires v <= SHAPE.Certs() && 1 <= r && Reaches(v, C(k, r), c) && c != C(k, r)
    ensures p in ParentKeys(k, r) && C(p, r - 1) in v && Reaches(v, C(p, r - 1), c)
  {
    var x := C(k, r);
    var y :| y in v && y.round < x.round && Edge(x, y) && Reaches(v, y, c);
    SHAPE.EdgeIs(k, r, y);
    SHAPE.IsCert(y);
    p := y.author;
  }

  lemma VisibleIsLog(log: seq<Certificate>, s: State)
    requires CM.Valid() && GoodDag(CM, SHAPE.Certs()) && Members(log) <= SHAPE.Certs()
    requires forall c :: c in log ==> c !in Genesis(CM)
    requires s.dag == Genesis(CM) + Members(log) && s.lastCommitted.Keys == (set k | k in CM.keys)
    requires forall k :: k in s.lastCommitted ==> s.lastCommitted[k] == 0
    requires Genesis(CM) <= SHAPE.Certs()
    ensures forall x :: x in Visible(s) <==> x in log
  {
    hide GoodDag, Shape.Cert, Shape.Certs, Visible;
    forall x
      ensures x in Visible(s) <==> x in log
    {
      AllVisible(CM, SHAPE.Certs(), s, x);
      if x in s.dag {
        AuthorInCommittee(CM, SHAPE.Certs(), x);
      }
    }
  }

  lemma FirstCommitOf(gcDepth: Round, before: seq<Certificate>, c: Certificate) returns (s: State)
    requires OneOfThem(before) && (before + [c] == LOG1 || before + [c] == LOG2) && before != LOG1 && before != LOG2
    requires InOrder(SHAPE, before) && InOrder(SHAPE, before + [c]) && NoRepeats(before + [c])
    ensures CM.Valid()
    ensures Inv(CM, gcDepth, SHAPE.Certs(), Delivered(CM, before + [c]), Genesis(CM), s)
    ensures s.lastCommittedRound == 0
    ensures var l := if before + [c] == LOG1 then C(2, 2) else C(1, 4);
            && l in before + [c]
            && Run(Code(gcDepth), before + [c]).out == CommitLeaders(s, OrderLeaders(Code(gcDepth), s, l), gcDepth).1
    ensures forall x :: x in Visible(s) <==> x in before + [c]
  {
    hide Run, GoodDag, InOrder, Inv, CommitLeaders, OrderLeaders, NoRepeats, Shape.Cert, Shape.Certs, Causal, NeverStale, Visible;
    var log := before + [c];
    Setting(log);
    InOrderIsCausal(SHAPE, log) by { ShapeIsValid(); }
    RoundAfter(gcDepth, before);
    RoundAfter(gcDepth, log);
    DistinctIsNeverStale(Code(gcDepth), SHAPE.Certs(), log);
    assert log[..|log| - 1] == before;
    assert NeverStale(Code(gcDepth), before) by { NeverStaleBefore(Code(gcDepth), before, c); }
    var leader;
    QuietState(Code(gcDepth), SHAPE.Certs(), before);
    s, leader := NextCommit(Code(gcDepth), SHAPE.Certs(), before, c);
    assert Genesis(CM) + Members([]) == Genesis(CM);
    LeaderIsKey(0);
    IsLeaderCert(log, leader.round, leader);
    LeaderPresent(log, leader.round);
    InvBasics(CM, gcDepth, SHAPE.Certs(), Delivered(CM, log), Genesis(CM), s);
    InvAccounted(CM, gcDepth, SHAPE.Certs(), Delivered(CM, log), Genesis(CM), s);
    assert s.dag == Genesis(CM) + Members(log);
    VisibleIsLog(log, s);
  }

  lemma LastOfThree(xs: seq<Certificate>, a: Certificate, b: Certificate, x: Certificate)
    requires NoRepeats(xs) && ByRound(xs) && Members(xs) == {a, b, x}
    requires a != b && a.round < x.round && b.round < x.round
    ensures |xs| == 3 && xs[2] == x
  {
    MembersSize(xs);
    assert x in Members(xs);
    var i :| 0 <= i < |xs| && xs[i] == x;
    assert forall j :: 0 <= j < |xs| ==> xs[j] in Members(xs);
  }

  /** The first node commits the round-2 leader on its own: it comes third, after the two certificates below it. */
  lemma FirstNode(gcDepth: Round)
    ensures CM.Valid() && |Run(Code(gcDepth), LOG1).out| == 3 && Run(Code(gcDepth), LOG1).out[2] == C(2, 2)
  {
    hide Run, InOrder, Inv, Shape.Cert, Shape.Certs, NoRepeats, ByRound, Visible, OrderDag, Layered;
    CommonInOrder();
    LogsInOrder();
    LogsDistinct();
    var s := FirstCommitOf(gcDepth, COMMON, C(2, 3));
    var l := C(2, 2);
    SHAPE.Slots();
    assert RoundsDown(1, 2) == [];
    assert OrderLeaders(Code(gcDepth), s, l) == [l];
    CommitLeadersUnfold(s, [l], gcDepth);
    var xs := OrderDag(s, l, gcDepth);
    assert Run(Code(gcDepth), LOG1).out == xs + [] == xs;
    VisibleLayered(CM, gcDepth, SHAPE.Certs(), Delivered(CM, LOG1), Genesis(CM), s, l);
    OrderDagExact(s, l, gcDepth);
    VisibleInside(s, gcDepth, LOG1);
    FirstNodeElements(s, gcDepth);
    LastOfThree(xs, C(0, 1), C(1, 1), l);
  }

  lemma FirstNodeElements(s: State, gcDepth: Round)
    requires forall x :: x in Visible(s) <==> x in LOG1
    requires Visible(s) <= SHAPE.Certs()
    requires forall c :: c in OrderDag(s, C(2, 2), gcDepth) <==> Reaches(Visible(s), C(2, 2), c) && 0 <= c.round + gcDepth
    ensures Members(OrderDag(s, C(2, 2), gcDepth)) == {C(0, 1), C(1, 1), C(2, 2)}
  {
    hide Shape.Cert, Shape.Certs, Visible, OrderDag, Reaches;
    SHAPE.Slots();
    var v := Visible(s);
    SHAPE.StepDown(v, 2, 2, 0);
    SHAPE.StepDown(v, 2, 2, 1);
    ReachesItself(v, C(2, 2));
    forall c | Reaches(v, C(2, 2), c) && c != C(2, 2)
      ensures c == C(0, 1) || c == C(1, 1)
    {
      var p := VisibleStep(v, 2, 2, c);
      if c != C(p, 1) {
        var q := VisibleStep(v, p, 1, c);
      }
    }
  }

  lemma ReachesItself(v: set<Certificate>, c: Certificate)
    ensures Reaches(v, c, c)
  {
  }

  /** The second node commits the round-4 leader first, and before it the round-3 leader the walk meets, which never saw round 2's. */
  lemma SecondNode(gcDepth: Round)
    ensures CM.Valid() && 3 <= |Run(Code(gcDepth), LOG2).out| && Run(Code(gcDepth), LOG2).out[2] != C(2, 2)
  {
    hide Run, InOrder, Inv, Shape.Cert, Shape.Certs, NoRepeats, ByRound, Visible, OrderDag, Layered, OrderLeaders, CommitLeaders;
    LogsInOrder();
    LogsDistinct();
    var s := FirstCommitOf(gcDepth, BEFORE2, C(0, 5));
    SecondWalk(s, gcDepth);
    CommitLeadersUnfold(s, [C(1, 4), C(0, 3)], gcDepth);
    var xs := OrderDag(s, C(0, 3), gcDepth);
    assert xs <= Run(Code(gcDepth), LOG2).out;
    SecondSubDag(s, gcDepth);
    assert xs[2] in xs;
  }

  lemma SecondWalk(s: State, gcDepth: Round)
    requires CM.Valid() && Inv(CM, gcDepth, SHAPE.Certs(), Delivered(CM, LOG2), Genesis(CM), s) && s.lastCommittedRound == 0
    ensures OrderLeaders(Code(gcDepth), s, C(1, 4)) == [C(1, 4), C(0, 3)]
  {
    hide Inv, Shape.Cert, Shape.Certs, Linked, LeaderAt, Reaches, GoodDag;
    SHAPE.Slots();
    LeaderIsKey(3);
    var delivered := Delivered(CM, LOG2);
    assert C(0, 3) in LOG2 && C(1, 4) in LOG2;
    InvBasics(CM, gcDepth, SHAPE.Certs(), delivered, Genesis(CM), s);
    LeaderIsDelivered(CM, gcDepth, SHAPE.Certs(), delivered, Genesis(CM), s, C(0, 3));
    SHAPE.StepDown(SHAPE.Certs(), 1, 4, 0);
    LinkedIsReachable(CM, gcDepth, SHAPE.Certs(), delivered, Genesis(CM), s, C(1, 4), C(0, 3));
    WalkOfOne(CM, s.dag, C(1, 4), C(0, 3));
  }

  lemma WalkOfOne(cm: Committee, dag: set<Certificate>, x: Certificate, p: Certificate)
    requires cm.Valid() && LeaderAt(cm, dag, 3) == Some(p) && Linked(dag, x, p)
    ensures Walk(cm, dag, RoundsDown(3, 2), x) == [p]
  {
    hide LeaderAt, Linked;
    assert RoundsDown(1, 2) == [] && RoundsDown(3, 2) == [3];
    assert [3][1..] == [];
    assert Walk(cm, dag, [], p) == [];
  }

  lemma SecondSubDag(s: State, gcDepth: Round)
    requires Inv(CM, gcDepth, SHAPE.Certs(), Delivered(CM, LOG2), Genesis(CM), s) && s.lastCommittedRound == 0
    requires forall x :: x in Visible(s) <==> x in LOG2
    ensures 3 <= |OrderDag(s, C(0, 3), gcDepth)| && C(2, 2) !in OrderDag(s, C(0, 3), gcDepth)
  {
    hide Inv, Shape.Cert, Shape.Certs, Visible, OrderDag, Layered, NoRepeats, Reaches;
    var v := Visible(s);
    var l := C(0, 3);
    LOG2Has();
    VisibleInside(s, gcDepth, LOG2);
    VisibleLayered(CM, gcDepth, SHAPE.Certs(), Delivered(CM, LOG2), Genesis(CM), s, l);
    OrderDagExact(s, l, gcDepth);
    SecondReaches(v);
    var xs := OrderDag(s, l, gcDepth);
    MembersSize(xs);
    assert {C(0, 1), C(0, 2), l} <= Members(xs);
    SubsetSize({C(0, 1), C(0, 2), l}, Members(xs));
  }

  lemma LOG2Has()
    ensures C(0, 1) in LOG2 && C(0, 2) in LOG2 && C(0, 3) in LOG2
    ensures |{C(0, 1), C(0, 2), C(0, 3)}| == 3
  {
    SHAPE.Slots();
  }

  lemma SecondReaches(v: set<Certificate>)
    requires v <= SHAPE.Certs() && C(0, 1) in v && C(0, 2) in v
    ensures Reaches(v, C(0, 3), C(0, 3)) && Reaches(v, C(0, 3), C(0, 2)) && Reaches(v, C(0, 3), C(0, 1))
    ensures !Reaches(v, C(0, 3), C(2, 2))
  {
    hide Shape.Cert, Shape.Certs, Reaches;
    SHAPE.Slots();
    SHAPE.StepDown(v, 0, 3, 0);
    SHAPE.StepDown(v, 0, 2, 0);
    ReachesTransitive(v, C(0, 3), C(0, 2), C(0, 1));
    ReachesItself(v, C(0, 3));
    if Reaches(v, C(0, 3), C(2, 2)) {
      var p := VisibleStep(v, 0, 3, C(2, 2));
      ReachesRound(v, C(p, 2), C(2, 2));
    }
  }

  lemma VisibleInside(s: State, gcDepth: Round, log: seq<Certificate>)
    requires Inv(CM, gcDepth, SHAPE.Certs(), Delivered(CM, log), Genesis(CM), s)
    ensures Visible(s) <= SHAPE.Certs()
  {
    hide GoodDag, Accounted;
  }

  /**
   * Agreement fails for the walk of the code, whatever the garbage-collection depth, on a DAG and on deliveries that
   * meet every hypothesis of `AnchorWalkTotalOrder` but the step of the walk.
   */
  lemma CodeWalkDiverges(gcDepth: Round)
    ensures CM.Valid() && GoodDag(CM, SHAPE.Certs()) && OwnHistory(SHAPE.Certs())
    ensures Causal(CM, SHAPE.Certs(), LOG1) && NeverStale(Code(gcDepth), LOG1)
    ensures Causal(CM, SHAPE.Certs(), LOG2) && NeverStale(Code(gcDepth), LOG2)
    ensures !(Run(Code(gcDepth), LOG1).out <= Run(Code(gcDepth), LOG2).out)
    ensures !(Run(Code(gcDepth), LOG2).out <= Run(Code(gcDepth), LOG1).out)
    ensures !(PeaksOf(CM, LOG1) <= PeaksOf(CM, LOG2)) && !(PeaksOf(CM, LOG2) <= PeaksOf(CM, LOG1))
  {
    hide PeaksOf, IntactRun, GoodDag, OwnHistory, Run, Causal, InOrder, NeverStale, Shape.Cert, Shape.Certs, Shape.Valid, NoRepeats;
    LogsInOrder();
    LogsDistinct();
    ShapeIsValid();
    Setting(LOG1);
    Setting(LOG2);
    DagIsOwnHistory();
    InOrderIsCausal(SHAPE, LOG1);
    InOrderIsCausal(SHAPE, LOG2);
    DistinctIsNeverStale(Code(gcDepth), SHAPE.Certs(), LOG1);
    DistinctIsNeverStale(Code(gcDepth), SHAPE.Certs(), LOG2);
    FirstNode(gcDepth);
    SecondNode(gcDepth);
    OwnHistoryRun(Code(gcDepth), SHAPE.Certs(), LOG1);
    OwnHistoryRun(Code(gcDepth), SHAPE.Certs(), LOG2);
    PeaksApart(gcDepth);
  }

  /** Memory was intact on both nodes: it is the walk that made their outputs differ. */
  lemma PeaksApart(gcDepth: Round)
    requires CM.Valid() && GoodDag(CM, SHAPE.Certs())
    requires Causal(CM, SHAPE.Certs(), LOG1) && IntactRun(Code(gcDepth), SHAPE.Certs(), LOG1)
    requires Causal(CM, SHAPE.Certs(), LOG2) && IntactRun(Code(gcDepth), SHAPE.Certs(), LOG2)
    requires !(Run(Code(gcDepth), LOG1).out <= Run(Code(gcDepth), LOG2).out)
    requires !(Run(Code(gcDepth), LOG2).out <= Run(Code(gcDepth), LOG1).out)
    ensures !(PeaksOf(CM, LOG1) <= PeaksOf(CM, LOG2)) && !(PeaksOf(CM, LOG2) <= PeaksOf(CM, LOG1))
  {
    hide PeaksOf, GoodDag, Run, Causal, IntactRun, Shape.Certs;
    if PeaksOf(CM, LOG1) <= PeaksOf(CM, LOG2) {
      CodeWalkOrder(Code(gcDepth), SHAPE.Certs(), LOG1, LOG2);
    }
    if PeaksOf(CM, LOG2) <= PeaksOf(CM, LOG1) {
      CodeWalkOrder(Code(gcDepth), SHAPE.Certs(), LOG2, LOG1);
    }
  }
}
