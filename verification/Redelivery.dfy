/**
 * A committed certificate handed to the engine again, after its author's later certificate was committed, is output a
 * second time as soon as a late certificate of another author points at it.
 */
module Redelivery {
  import opened Collections
  import opened Committees
  import opened Dags
  import opened Engine
  import opened Retention
  import opened SubDags
  import opened Commits
  import opened Steady
  import opened ConcreteRuns

  // Stakes 4, 1: quorum 4, validity 2. Authority 0 leads every even round.
  const CM := Committee([0, 1], map[0 := 4, 1 := 1], map[])

  predicate Present(k: Key, r: Round) {
    k < 2 && (r == 0 || (k == 0 && r <= 5) || (k == 1 && r == 2))
  }

  function ParentKeys(k: Key, r: Round): seq<Key> {
    if r == 3 then [0, 1] else [0]
  }

  const SHAPE := Shape(CM, 5, Present, ParentKeys)

  function C(k: Key, r: Round): Certificate {
    SHAPE.Cert(k, r)
  }

  const BEFORE: seq<Certificate> := [C(0, 1)] + [C(0, 2)] + [C(1, 2)]
  const FIRST: seq<Certificate> := BEFORE + [C(0, 3)]
  const AGAIN: seq<Certificate> := FIRST + [C(0, 1)]
  const STORED: seq<Certificate> := AGAIN + [C(0, 4)]
  const LOG: seq<Certificate> := STORED + [C(0, 5)]

  function Code(gcDepth: Round): Config {
    Config(CM, gcDepth, false, 1)
  }

  lemma WeightIs(names: set<Key>)
    ensures CM.Valid()
    ensures CM.Weight(names) == (if 0 in names then 4 else 0) + (if 1 in names then 1 else 0)
    ensures CM.QuorumThreshold() == 4 && CM.ValidityThreshold() == 2
  {
    CM.OfTwo(0, 1, names);
  }

  lemma SlotRooted(k: Key, r: Round)
    requires k in CM.keys && 1 <= r <= 5 && Present(k, r)
    ensures SHAPE.Rooted(k, r)
  {
    hide Committee.Weight, Committee.QuorumThreshold;
    WeightIs(set p | p in ParentKeys(k, r));
    assert ParentKeys(k, r)[0] == 0;
  }

  lemma ShapeIsValid()
    ensures SHAPE.Valid()
  {
    hide Shape.Rooted, ParentKeys, Committee.Weight, Committee.QuorumThreshold;
    forall k, r | k in CM.keys && 1 <= r <= 5 && Present(k, r)
      ensures SHAPE.Rooted(k, r)
    {
      SlotRooted(k, r);
    }
    WeightIs({});
  }

  lemma BeforeInOrder()
    ensures InOrder(SHAPE, BEFORE) && InOrder(SHAPE, FIRST)
  {
    hide InOrder, Shape.Cert, Shape.Certs;
    EmptyInOrder(SHAPE);
    InOrderStep(SHAPE, [], 0, 1);
    assert [] + [C(0, 1)] == [C(0, 1)];
    InOrderStep(SHAPE, [C(0, 1)], 0, 2);
    InOrderStep(SHAPE, [C(0, 1)] + [C(0, 2)], 1, 2);
    InOrderStep(SHAPE, BEFORE, 0, 3);
  }

  lemma StoredInOrder()
    ensures InOrder(SHAPE, AGAIN) && InOrder(SHAPE, STORED)
  {
    hide InOrder, Shape.Cert, Shape.Certs;
    BeforeInOrder();
    InOrderStep(SHAPE, FIRST, 0, 1);
    assert AGAIN[3] == C(0, 3);
    InOrderStep(SHAPE, AGAIN, 0, 4);
  }

  lemma LogsInOrder()
    ensures InOrder(SHAPE, BEFORE) && InOrder(SHAPE, FIRST) && InOrder(SHAPE, AGAIN) && InOrder(SHAPE, STORED)
    ensures InOrder(SHAPE, LOG)
  {
    hide InOrder, Shape.Cert, Shape.Certs;
    BeforeInOrder();
    StoredInOrder();
    assert STORED[5] == C(0, 4);
    InOrderStep(SHAPE, STORED, 0, 5);
  }

  ghost predicate OneOfThem(log: seq<Certificate>) {
    log == BEFORE || log == FIRST || log == AGAIN || log == STORED || log == LOG
  }

  lemma Setting(log: seq<Certificate>)
    requires OneOfThem(log)
    ensures CM.Valid() && GoodDag(CM, SHAPE.Certs()) && Causal(CM, SHAPE.Certs(), log)
    ensures Members(log) <= SHAPE.Certs() && Genesis(CM) <= SHAPE.Certs()
  {
    hide InOrder, Shape.Cert, Shape.Certs;
    LogsInOrder();
    ShapeIsValid();
    WeightIs({});
    SHAPE.IsGood();
    InOrderIsCausal(SHAPE, log);
    CausalInside(CM, SHAPE.Certs(), log);
    GenesisIncluded(CM, SHAPE.Certs());
  }

  lemma SupportOf(log: seq<Certificate>, r: Round)
    requires OneOfThem(log) && AnchorRound(r)
    ensures CM.Valid() && (SupportedRound(CM, Delivered(CM, log), r) <==> r <= 4 && C(0, r + 1) in log)
  {
    hide Shape.Cert, Shape.Certs, Supporters, GoodDag, OneOfThem;
    Setting(log);
    SHAPE.Slots();
    var s := Delivered(CM, log);
    assert CM.Leader(r) == 0;
    if leader :| SupportedAt(CM, s, r, leader) {
      SHAPE.IsCert(leader);
      SupportWeight(log, r);
    }
    if r <= 4 && C(0, r + 1) in log {
      SupportWeight(log, r);
      LeaderBelow(log, r);
      assert SupportedAt(CM, s, r, C(0, r));
    }
  }

  lemma LeaderBelow(log: seq<Certificate>, r: Round)
    requires OneOfThem(log) && AnchorRound(r) && r <= 4 && C(0, r + 1) in log
    ensures C(0, r) in log
  {
    hide Shape.Cert;
    SHAPE.Slots();
  }

  lemma SupportWeight(log: seq<Certificate>, r: Round)
    requires OneOfThem(log) && AnchorRound(r) && r <= 5
    ensures CM.Valid() && (Supported(CM, Delivered(CM, log), C(0, r)) <==> r <= 4 && C(0, r + 1) in log)
  {
    hide Shape.Cert, Shape.Certs, Supporters, GoodDag, OneOfThem;
    Setting(log);
    SHAPE.Slots();
    SupportAuthors(SHAPE, Delivered(CM, log), 0, r);
    var authors := Authors(Supporters(Delivered(CM, log), C(0, r)));
    WeightIs(authors);
    OddRounds(log, r);
  }

  lemma OddRounds(log: seq<Certificate>, r: Round)
    requires OneOfThem(log) && AnchorRound(r)
    ensures C(1, r + 1) !in log && (C(0, r + 1) in log ==> r <= 4)
  {
    hide Shape.Cert;
    SHAPE.Slots();
  }

  lemma RoundAfter(gcDepth: Round, log: seq<Certificate>)
    requires OneOfThem(log)
    ensures CM.Valid()
    ensures Run(Code(gcDepth), log).s.lastCommittedRound == if C(0, 5) in log then 4 else if C(0, 3) in log then 2 else 0
  {
    hide Run, GoodDag, SupportedRound, InOrder, OneOfThem;
    Setting(log);
    SteadyRun(Code(gcDepth), SHAPE.Certs(), log);
    forall r: Round | AnchorRound(r)
      ensures SupportedRound(CM, Delivered(CM, log), r) <==> r <= 4 && C(0, r + 1) in log
    {
      SupportOf(log, r);
    }
    assert AnchorRound(2) && AnchorRound(4);
  }

  // ----- The first commit -----

  lemma BeforeIsDistinct()
    ensures NoRepeats(BEFORE)
  {
    hide Shape.Cert;
    SHAPE.Slots();
  }

  /** The round-2 leader and everything it reaches is by its own author. */
  lemma OwnChain(v: set<Certificate>, c: Certificate)
    requires v <= SHAPE.Certs() && Reaches(v, C(0, 2), c)
    ensures c.author == 0
  {
    hide Shape.Cert, Shape.Certs;
    SHAPE.Slots();
    if c != C(0, 2) {
      var y :| y in v && y.round < 2 && Edge(C(0, 2), y) && Reaches(v, y, c);
      SHAPE.EdgeIs(0, 2, y);
      SHAPE.IsCert(y);
      OwnChainBelow(v, c);
    }
  }

  lemma OwnChainBelow(v: set<Certificate>, c: Certificate)
    requires v <= SHAPE.Certs() && Reaches(v, C(0, 1), c)
    ensures c.author == 0
  {
    hide Shape.Cert, Shape.Certs;
    SHAPE.Slots();
    if c != C(0, 1) {
      var z :| z in v && z.round < 1 && Edge(C(0, 1), z) && Reaches(v, z, c);
      SHAPE.EdgeIs(0, 1, z);
      ReachesRound(v, z, c);
    }
  }

  lemma BeforeIsQuiet(gcDepth: Round)
    ensures CM.Valid() && Run(Code(gcDepth), BEFORE).s.lastCommittedRound == 0
    ensures var n := Run(Code(gcDepth), BEFORE);
            && n.out == [] && n.s.dag == Delivered(CM, BEFORE)
            && (forall k :: k in n.s.lastCommitted ==> n.s.lastCommitted[k] == 0)
  {
    hide Run, InOrder, Shape.Cert, Shape.Certs, GoodDag, Causal, NeverStale;
    Setting(BEFORE);
    RoundAfter(gcDepth, BEFORE);
    SHAPE.Slots();
    BeforeIsDistinct();
    LogsInOrder();
    ShapeIsValid();
    InOrderIsCausal(SHAPE, BEFORE);
    DistinctIsNeverStale(Code(gcDepth), SHAPE.Certs(), BEFORE);
    QuietState(Code(gcDepth), SHAPE.Certs(), BEFORE);
  }

  lemma FirstOutput(gcDepth: Round)
    ensures CM.Valid() && C(0, 1) in Run(Code(gcDepth), FIRST).out
    ensures forall c :: c in Run(Code(gcDepth), FIRST).out ==> c.author == 0
  {
    hide Run, Inv, Shape.Cert, Shape.Certs, OrderDag, GoodDag, Causal, Delivered;
    Setting(BEFORE);
    Setting(FIRST);
    BeforeIsQuiet(gcDepth);
    RoundAfter(gcDepth, FIRST);
    SHAPE.Slots();
    var s, leader := NextCommit(Code(gcDepth), SHAPE.Certs(), BEFORE, C(0, 3));
    assert Genesis(CM) + Members([]) == Genesis(CM);
    InvBasics(CM, gcDepth, SHAPE.Certs(), Delivered(CM, FIRST), Genesis(CM), s);
    SHAPE.IsCert(leader);
    assert leader == C(0, 2);
    assert C(0, 1) in s.dag by { assert C(0, 1) in BEFORE; InDelivered(CM, BEFORE, C(0, 1)); }
    FirstSubDag(s, gcDepth);
    assert OrderLeaders(Code(gcDepth), s, leader) == [leader];
    CommitLeadersUnfold(s, [leader], gcDepth);
    assert Run(Code(gcDepth), FIRST).out == [] + (OrderDag(s, leader, gcDepth) + []);
  }

  lemma InDelivered(cm: Committee, log: seq<Certificate>, c: Certificate)
    requires c in log
    ensures c in Delivered(cm, log)
  {
  }

  lemma FirstSubDag(s: State, gcDepth: Round)
    requires CM.Valid() && Inv(CM, gcDepth, SHAPE.Certs(), Delivered(CM, FIRST), Genesis(CM), s)
    requires s.lastCommittedRound == 0 && C(0, 1) in s.dag && forall k :: k in s.lastCommitted ==> s.lastCommitted[k] == 0
    ensures C(0, 1) in OrderDag(s, C(0, 2), gcDepth)
    ensures forall c :: c in OrderDag(s, C(0, 2), gcDepth) ==> c.author == 0
    ensures RoundsDown(1, s.lastCommittedRound + 2) == []
  {
    hide Inv, Shape.Cert, Shape.Certs, OrderDag, Layered, Reaches;
    var l := C(0, 2);
    SHAPE.Slots();
    assert l in FIRST;
    InDelivered(CM, FIRST, l);
    InvBasics(CM, gcDepth, SHAPE.Certs(), Delivered(CM, FIRST), Genesis(CM), s);
    VisibleLayered(CM, gcDepth, SHAPE.Certs(), Delivered(CM, FIRST), Genesis(CM), s, l);
    OrderDagExact(s, l, gcDepth);
    var v := Visible(s);
    SHAPE.StepDown(v, 0, 2, 0);
    forall c | c in OrderDag(s, l, gcDepth)
      ensures c.author == 0
    {
      OwnChain(v, c);
    }
  }

  /** After it authority 0 stands at round 2, authority 1 still at 0, and the late certificate of round 2 is in memory. */
  lemma FirstState(gcDepth: Round)
    ensures CM.Valid()
    ensures var s := Run(Code(gcDepth), FIRST).s;
            && s.lastCommittedRound == 2 && s.lastCommitted.Keys == {0, 1}
            && s.lastCommitted[0] == 2 && s.lastCommitted[1] == 0
            && C(0, 3) in s.dag && C(1, 2) in s.dag
  {
    hide Run, Shape.Cert, Shape.Certs, GoodDag, Causal, Accounted, Retained, History;
    Setting(FIRST);
    SHAPE.Slots();
    RoundAfter(gcDepth, FIRST);
    FirstOutput(gcDepth);
    RunSound(Code(gcDepth), SHAPE.Certs(), FIRST);
    var n := Run(Code(gcDepth), FIRST);
    AuthorsStand(n.s, n.out);
    assert C(0, 3) in FIRST && C(1, 2) in FIRST;
    InDelivered(CM, FIRST, C(0, 3));
    InDelivered(CM, FIRST, C(1, 2));
    StillHeld(gcDepth, Delivered(CM, FIRST), n.s);
  }

  lemma StillHeld(gcDepth: Round, delivered: set<Certificate>, s: State)
    requires Retained(delivered, gcDepth, s) && s.lastCommittedRound == 2 && s.lastCommitted.Keys == {0, 1}
    requires s.lastCommitted[0] == 2 && s.lastCommitted[1] == 0
    requires C(0, 3) in delivered && C(1, 2) in delivered
    ensures C(0, 3) in s.dag && C(1, 2) in s.dag
  {
    hide Shape.Cert;
    SHAPE.Slots();
    assert Kept(s.lastCommitted, 2, gcDepth, C(0, 3)) && Kept(s.lastCommitted, 2, gcDepth, C(1, 2));
  }

  lemma AuthorsStand(s: State, out: seq<Certificate>)
    requires CM.Valid() && Accounted(CM, Genesis(CM) + Members(out), s) && s.lastCommittedRound == 2
    requires forall c :: c in out ==> c.author == 0
    ensures s.lastCommitted.Keys == {0, 1} && s.lastCommitted[0] == 2 && s.lastCommitted[1] == 0
  {
    hide MaxOf;
    var committed := Genesis(CM) + Members(out);
    assert CM.keys[0] == 0 && CM.keys[1] == 1;
    assert 0 in s.lastCommitted.Keys && 1 in s.lastCommitted.Keys;
    var top := AtTop(CM, committed, s);
    assert top in Members(out);
    var c :| c in committed && c.author == 1 && c.round == s.lastCommitted[1];
    assert c in Genesis(CM);
  }

  lemma AtTop(cm: Committee, committed: set<Certificate>, s: State) returns (c: Certificate)
    requires cm.Valid() && Accounted(cm, committed, s) && 0 < s.lastCommittedRound
    ensures c in committed && c.round == s.lastCommittedRound == s.lastCommitted[c.author]
  {
    var k :| k in s.lastCommitted && s.lastCommitted[k] == s.lastCommittedRound;
    c :| c in committed && c.author == k && c.round == s.lastCommitted[k];
  }

  // ----- The second -----

  lemma StoredState(gcDepth: Round)
    ensures CM.Valid()
    ensures var n := Run(Code(gcDepth), STORED);
            && n.out == Run(Code(gcDepth), FIRST).out
            && n.s.lastCommittedRound == 2 && n.s.lastCommitted.Keys == {0, 1}
            && n.s.lastCommitted[0] == 2 && n.s.lastCommitted[1] == 0
            && C(0, 3) in n.s.dag && C(1, 2) in n.s.dag && C(0, 1) in n.s.dag
  {
    hide Run, Shape.Cert, Shape.Certs, GoodDag, Causal, InOrder;
    SHAPE.Slots();
    FirstState(gcDepth);
    StoredOnly(Code(gcDepth), FIRST, C(0, 1));
    StoredOnly(Code(gcDepth), AGAIN, C(0, 4));
  }

  /**
   * Without the redelivery hypothesis a certificate is output twice: for every garbage-collection depth from 1, on a
   * valid DAG delivered in causal order.
   */
  lemma StaleDeliveryCommitsTwice(gcDepth: Round)
    requires 1 <= gcDepth
    ensures CM.Valid() && GoodDag(CM, SHAPE.Certs()) && Causal(CM, SHAPE.Certs(), LOG)
    ensures exists i, j :: 0 <= i < j < |Run(Code(gcDepth), LOG).out| && Run(Code(gcDepth), LOG).out[i] == Run(Code(gcDepth), LOG).out[j]
    ensures !NeverStale(Code(gcDepth), LOG)
  {
    hide Run, InOrder, Inv, Shape.Cert, Shape.Certs, OrderDag, Layered, GoodDag, Causal, NeverStale;
    Setting(LOG);
    RoundAfter(gcDepth, STORED);
    RoundAfter(gcDepth, LOG);
    SHAPE.Slots();
    StoredState(gcDepth);
    FirstOutput(gcDepth);
    var s, leader := NextCommit(Code(gcDepth), SHAPE.Certs(), STORED, C(0, 5));
    var first := Run(Code(gcDepth), STORED).out;
    SecondSubDag(s, leader, gcDepth, Genesis(CM) + Members(first));
    assert OrderLeaders(Code(gcDepth), s, leader) == [leader];
    CommitLeadersUnfold(s, [leader], gcDepth);
    var again := OrderDag(s, leader, gcDepth);
    var out := Run(Code(gcDepth), LOG).out;
    assert out == first + (again + []);
    var i :| 0 <= i < |first| && first[i] == C(0, 1);
    var j :| 0 <= j < |again| && again[j] == C(0, 1);
    assert out[i] == out[|first| + j];
    if NeverStale(Code(gcDepth), LOG) {
      NoDoubleCommit(Code(gcDepth), SHAPE.Certs(), LOG);
    }
  }

  lemma SecondSubDag(s: State, leader: Certificate, gcDepth: Round, committed: set<Certificate>)
    requires 1 <= gcDepth && CM.Valid() && Inv(CM, gcDepth, SHAPE.Certs(), Delivered(CM, LOG), committed, s)
    requires s.lastCommittedRound == 2 && s.lastCommitted.Keys == {0, 1} && s.lastCommitted[0] == 2 && s.lastCommitted[1] == 0
    requires C(0, 3) in s.dag && C(1, 2) in s.dag && C(0, 1) in s.dag
    requires leader in s.dag && leader.round == 4 && leader.author == CM.Leader(4)
    ensures C(0, 1) in OrderDag(s, leader, gcDepth)
    ensures RoundsDown(leader.round - 1, s.lastCommittedRound + 2) == []
  {
    hide Inv, Shape.Cert, Shape.Certs, OrderDag, Layered, Reaches;
    InvBasics(CM, gcDepth, SHAPE.Certs(), Delivered(CM, LOG), committed, s);
    SHAPE.Slots();
    SHAPE.IsCert(leader);
    assert leader == C(0, 4);
    VisibleLayered(CM, gcDepth, SHAPE.Certs(), Delivered(CM, LOG), committed, s, leader);
    OrderDagExact(s, leader, gcDepth);
    var v := Visible(s);
    SHAPE.StepDown(v, 0, 4, 0);
    SHAPE.StepDown(v, 0, 3, 1);
    SHAPE.StepDown(v, 1, 2, 0);
    ReachesTransitive(v, C(0, 3), C(1, 2), C(0, 1));
    ReachesTransitive(v, leader, C(0, 3), C(0, 1));
  }
}
