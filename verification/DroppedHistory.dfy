/**
 * A certificate that does not descend from its author's previous one makes the engine forget that one: two nodes with
 * the same certificates, the same committed leaders and nothing delivered twice then output different certificates.
 */
module DroppedHistory {
  import opened Collections
  import opened Committees
  import opened Dags
  import opened Engine
  import opened Retention
  import opened SubDags
  import opened Commits
  import opened Steady
  import opened Agreement
  import opened ConcreteRuns

  // Stakes 10, 1, 1: quorum 9, validity 4. Leaders: 2 at round 2, 1 at round 4.
  const CM := Committee([0, 1, 2], map[0 := 10, 1 := 1, 2 := 1], map[])

  predicate Present(k: Key, r: Round) {
    k < 3 && (r == 0 || (k == 0 && r <= 5) || (k == 1 && 2 <= r <= 4) || (k == 2 && r <= 2))
  }

  // Authority 2 builds its second certificate without its first, which only authority 1 lists.
  function ParentKeys(k: Key, r: Round): seq<Key> {
    if (k == 0 && r == 3) || (k == 1 && r == 2) then [0, 2]
    else if (k == 0 && r == 5) || (k == 1 && 3 <= r) then [0, 1]
    else [0]
  }

  const SHAPE := Shape(CM, 5, Present, ParentKeys)

  function C(k: Key, r: Round): Certificate {
    SHAPE.Cert(k, r)
  }

  const QUIET: seq<Certificate> := [C(0, 1)] + [C(0, 2)] + [C(2, 2)]
  const EARLY: seq<Certificate> := [C(2, 1)] + [C(0, 1)] + [C(0, 2)] + [C(2, 2)]

  /** What follows the first commit. */
  function Tail(log: seq<Certificate>): seq<Certificate> {
    log + [C(1, 2)] + [C(1, 3)] + [C(0, 4)] + [C(1, 4)]
  }

  // The first certificate of authority 2 comes after the first commit in one run and before it in the other.
  const LATE_LOG: seq<Certificate> := Tail(QUIET + [C(0, 3)] + [C(2, 1)]) + [C(0, 5)]
  const EARLY_LOG: seq<Certificate> := Tail(EARLY + [C(0, 3)]) + [C(0, 5)]

  lemma WeightIs(names: set<Key>)
    ensures CM.Valid()
    ensures CM.Weight(names) == (if 0 in names then 10 else 0) + (if 1 in names then 1 else 0) + (if 2 in names then 1 else 0)
    ensures CM.QuorumThreshold() == 9 && CM.ValidityThreshold() == 4
  {
    CM.OfThree(0, 1, 2, names);
  }

  lemma ParentsPresent(k: Key, r: Round, p: Key)
    requires k in CM.keys && 1 <= r <= 5 && Present(k, r) && p in ParentKeys(k, r)
    ensures p in CM.keys && Present(p, r - 1)
  {
    assert CM.keys[p] == p;
  }

  lemma SlotRooted(k: Key, r: Round)
    requires k in CM.keys && 1 <= r <= 5 && Present(k, r)
    ensures SHAPE.Rooted(k, r)
  {
    hide Committee.Weight, Committee.QuorumThreshold, Present;
    WeightIs(set p | p in ParentKeys(k, r));
    assert ParentKeys(k, r)[0] == 0;
    forall p | p in ParentKeys(k, r)
      ensures p in CM.keys && Present(p, r - 1)
    {
      ParentsPresent(k, r, p);
    }
    hide ParentKeys;
  }

  lemma ShapeIsValid()
    ensures SHAPE.Valid()
  {
    hide Shape.Rooted, ParentKeys, Committee.Weight, Committee.QuorumThreshold;
    forall k, r | k in CM.keys && 1 <= r <= 5 && Present(k, r)
      ensures SHAPE.Rooted(k, r)
    {
      SlotRooted(k, r);
    }
    WeightIs({});
  }

  // ----- The logs -----

  lemma TailInOrder(log: seq<Certificate>)
    requires InOrder(SHAPE, log) && C(0, 1) in log && C(0, 2) in log && C(0, 3) in log && C(2, 1) in log
    ensures InOrder(SHAPE, Tail(log)) && InOrder(SHAPE, Tail(log) + [C(0, 5)])
  {
    hide InOrder, Shape.Cert, Shape.Certs;
    InOrderStep(SHAPE, log, 1, 2);
    InOrderStep(SHAPE, log + [C(1, 2)], 1, 3);
    InOrderStep(SHAPE, log + [C(1, 2)] + [C(1, 3)], 0, 4);
    InOrderStep(SHAPE, log + [C(1, 2)] + [C(1, 3)] + [C(0, 4)], 1, 4);
    InOrderStep(SHAPE, Tail(log), 0, 5);
  }

  lemma LateInOrder()
    ensures InOrder(SHAPE, QUIET) && InOrder(SHAPE, QUIET + [C(0, 3)])
    ensures InOrder(SHAPE, QUIET + [C(0, 3)] + [C(2, 1)])
    ensures InOrder(SHAPE, Tail(QUIET + [C(0, 3)] + [C(2, 1)])) && InOrder(SHAPE, LATE_LOG)
  {
    hide InOrder, Shape.Cert, Shape.Certs, Tail;
    EmptyInOrder(SHAPE);
    InOrderStep(SHAPE, [], 0, 1);
    assert [] + [C(0, 1)] == [C(0, 1)];
    InOrderStep(SHAPE, [C(0, 1)], 0, 2);
    InOrderStep(SHAPE, [C(0, 1)] + [C(0, 2)], 2, 2);
    InOrderStep(SHAPE, QUIET, 0, 3);
    InOrderStep(SHAPE, QUIET + [C(0, 3)], 2, 1);
    TailInOrder(QUIET + [C(0, 3)] + [C(2, 1)]);
  }

  lemma EarlyStartInOrder()
    ensures InOrder(SHAPE, [C(2, 1)] + [C(0, 1)] + [C(0, 2)])
  {
    hide InOrder, Shape.Cert, Shape.Certs;
    EmptyInOrder(SHAPE);
    InOrderStep(SHAPE, [], 2, 1);
    assert [] + [C(2, 1)] == [C(2, 1)];
    InOrderStep(SHAPE, [C(2, 1)], 0, 1);
    InOrderStep(SHAPE, [C(2, 1)] + [C(0, 1)], 0, 2);
  }

  lemma EarlyQuietInOrder()
    ensures InOrder(SHAPE, EARLY) && InOrder(SHAPE, EARLY + [C(0, 3)])
  {
    hide InOrder, Shape.Cert, Shape.Certs;
    EarlyStartInOrder();
    InOrderStep(SHAPE, [C(2, 1)] + [C(0, 1)] + [C(0, 2)], 2, 2);
    assert EARLY[2] == C(0, 2) && EARLY[3] == C(2, 2);
    InOrderStep(SHAPE, EARLY, 0, 3);
  }

  lemma EarlyInOrder()
    ensures InOrder(SHAPE, EARLY) && InOrder(SHAPE, EARLY + [C(0, 3)])
    ensures InOrder(SHAPE, Tail(EARLY + [C(0, 3)])) && InOrder(SHAPE, EARLY_LOG)
  {
    hide InOrder, Shape.Cert, Shape.Certs, Tail;
    EarlyQuietInOrder();
    var log := EARLY + [C(0, 3)];
    assert log[0] == C(2, 1) && log[1] == C(0, 1) && log[2] == C(0, 2) && log[4] == C(0, 3);
    TailInOrder(log);
  }

  lemma Setting(log: seq<Certificate>)
    requires InOrder(SHAPE, log)
    ensures CM.Valid() && GoodDag(CM, SHAPE.Certs()) && Causal(CM, SHAPE.Certs(), log)
    ensures Members(log) <= SHAPE.Certs() && Genesis(CM) <= SHAPE.Certs()
    ensures forall c :: c in log ==> c !in Genesis(CM)
  {
    hide InOrder, Shape.Cert, Shape.Certs;
    ShapeIsValid();
    WeightIs({});
    SHAPE.IsGood();
    InOrderIsCausal(SHAPE, log);
    CausalInside(CM, SHAPE.Certs(), log);
    GenesisIncluded(CM, SHAPE.Certs());
  }

  lemma {:induction false} ParentsInLog(log: seq<Certificate>, k: Key, r: Round, p: Key)
    requires InOrder(SHAPE, log) && C(k, r) in log && 2 <= r && p in ParentKeys(k, r)
    ensures C(p, r - 1) in log
    decreases |log|
  {
    hide Shape.Cert, Shape.Certs;
    SHAPE.Slots();
    var n := |log| - 1;
    if log[n] == C(k, r) {
      assert C(p, r - 1) in log[..n];
    } else {
      ParentsInLog(log[..n], k, r, p);
    }
  }

  // ----- Which rounds have a supported leader -----

  function LeaderKey(r: Round): Key {
    if r == 2 then 2 else 1
  }

  lemma SupportWeight(log: seq<Certificate>, r: Round)
    requires InOrder(SHAPE, log) && (r == 2 || r == 4)
    ensures CM.Valid() && (Supported(CM, Delivered(CM, log), C(LeaderKey(r), r)) <==> C(0, r + 1) in log)
  {
    hide Shape.Cert, Shape.Certs, Supporters, GoodDag, InOrder;
    Setting(log);
    SHAPE.Slots();
    SupportAuthors(SHAPE, Delivered(CM, log), LeaderKey(r), r);
    WeightIs(Authors(Supporters(Delivered(CM, log), C(LeaderKey(r), r))));
    assert C(0, r + 1) in Delivered(CM, log) <==> C(0, r + 1) in log;
  }

  lemma SupportOf(log: seq<Certificate>, r: Round)
    requires InOrder(SHAPE, log) && AnchorRound(r)
    ensures CM.Valid() && (SupportedRound(CM, Delivered(CM, log), r) <==> r <= 4 && C(0, r + 1) in log)
  {
    hide Shape.Cert, Shape.Certs, Supporters, GoodDag, InOrder, Supported;
    Setting(log);
    SHAPE.Slots();
    var s := Delivered(CM, log);
    if leader :| SupportedAt(CM, s, r, leader) {
      SHAPE.IsCert(leader);
      assert r <= 4;
      assert CM.Leader(r) == LeaderKey(r);
      SupportWeight(log, r);
    }
    if r <= 4 && C(0, r + 1) in log {
      assert CM.Leader(r) == LeaderKey(r);
      SupportWeight(log, r);
      ParentsInLog(log, 0, r + 1, LeaderKey(r));
      assert SupportedAt(CM, s, r, C(LeaderKey(r), r));
    }
  }

  lemma RoundAfter(cfg: Config, log: seq<Certificate>)
    requires cfg.committee == CM && !cfg.dynamic && 1 <= cfg.walkStep && InOrder(SHAPE, log)
    ensures CM.Valid()
    ensures C(0, 5) in log ==> Run(cfg, log).s.lastCommittedRound == 4
    ensures C(0, 5) !in log && C(0, 3) in log ==> Run(cfg, log).s.lastCommittedRound == 2
    ensures C(0, 5) !in log && C(0, 3) !in log ==> Run(cfg, log).s.lastCommittedRound == 0
  {
    hide Run, GoodDag, SupportedRound, InOrder;
    Setting(log);
    SteadyRun(cfg, SHAPE.Certs(), log);
    forall r: Round | AnchorRound(r)
      ensures SupportedRound(CM, Delivered(CM, log), r) <==> r <= 4 && C(0, r + 1) in log
    {
      SupportOf(log, r);
    }
    assert AnchorRound(2) && AnchorRound(4);
  }

  // ----- The first commit -----

  ghost predicate IsConfig(cfg: Config) {
    cfg.committee == CM && !cfg.dynamic && 1 <= cfg.walkStep && 1 <= cfg.gcDepth
  }

  lemma Settings(cfg: Config, log: seq<Certificate>)
    requires IsConfig(cfg) && InOrder(SHAPE, log) && NoRepeats(log)
    ensures CM.Valid() && GoodDag(CM, SHAPE.Certs()) && Causal(CM, SHAPE.Certs(), log) && NeverStale(cfg, log)
  {
    hide InOrder, Shape.Cert, Shape.Certs, GoodDag, Causal, NeverStale;
    Setting(log);
    DistinctIsNeverStale(cfg, SHAPE.Certs(), log);
  }

  /** The leader of round 2 reaches its author's parent by authority 0 and nothing else. */
  lemma FirstReach(v: set<Certificate>, c: Certificate)
    requires v <= SHAPE.Certs() && (forall x :: x in v ==> x.round != 0) && Reaches(v, C(2, 2), c)
    ensures c == C(2, 2) || c == C(0, 1)
  {
    hide Shape.Cert, Shape.Certs;
    SHAPE.Slots();
    if c != C(2, 2) {
      var y :| y in v && y.round < 2 && Edge(C(2, 2), y) && Reaches(v, y, c);
      SHAPE.EdgeIs(2, 2, y);
      SHAPE.IsCert(y);
      assert y == C(0, 1);
      ReachesRound(v, y, c);
    }
  }

  lemma {:induction false} UpdateAllKept(s: State, xs: seq<Certificate>, gcDepth: Round)
    requires xs != []
    ensures var t := UpdateAll(s, xs, gcDepth);
            forall x :: x in t.dag ==> Kept(t.lastCommitted, t.lastCommittedRound, gcDepth, x)
    decreases |xs|
  {
    if |xs| == 1 {
      assert xs[1..] == [];
      var t := Update(s, xs[0], gcDepth);
      assert UpdateAll(s, xs, gcDepth) == UpdateAll(t, [], gcDepth) == t;
      assert forall x :: x in t.dag ==> Kept(t.lastCommitted, t.lastCommittedRound, gcDepth, x);
    } else {
      UpdateAllKept(Update(s, xs[0], gcDepth), xs[1..], gcDepth);
      assert UpdateAll(s, xs, gcDepth) == UpdateAll(Update(s, xs[0], gcDepth), xs[1..], gcDepth);
    }
  }

  lemma EverythingVisible(cfg: Config, log: seq<Certificate>, s: State)
    requires IsConfig(cfg) && Inv(CM, cfg.gcDepth, SHAPE.Certs(), Delivered(CM, log), Genesis(CM), s)
    requires forall k :: k in s.lastCommitted ==> s.lastCommitted[k] == 0
    ensures forall c :: c in Visible(s) <==> c in s.dag && c.round != 0
  {
    hide Inv, GoodDag, Shape.Cert, Shape.Certs, Accounted, Visible;
    InvBasics(CM, cfg.gcDepth, SHAPE.Certs(), Delivered(CM, log), Genesis(CM), s);
    InvAccounted(CM, cfg.gcDepth, SHAPE.Certs(), Delivered(CM, log), Genesis(CM), s);
    AccountedKeys(CM, Genesis(CM), s);
    forall c
      ensures c in Visible(s) <==> c in s.dag && c.round != 0
    {
      AllVisible(CM, SHAPE.Certs(), s, c);
    }
  }

  /** The first sub-DAG: its leader and the certificate below it. */
  lemma FirstSubDag(cfg: Config, log: seq<Certificate>, s: State)
    requires IsConfig(cfg) && CM.Valid() && InOrder(SHAPE, log)
    requires Inv(CM, cfg.gcDepth, SHAPE.Certs(), Delivered(CM, log), Genesis(CM), s)
    requires s.lastCommittedRound == 0 && C(0, 1) in s.dag && C(2, 2) in s.dag
    requires forall k :: k in s.lastCommitted ==> s.lastCommitted[k] == 0
    ensures Members(OrderDag(s, C(2, 2), cfg.gcDepth)) == {C(0, 1), C(2, 2)}
  {
    hide Inv, GoodDag, Shape.Cert, Shape.Certs, OrderDag, Layered, Reaches, InOrder, Visible;
    var l, v := C(2, 2), Visible(s);
    SHAPE.Slots();
    InvBasics(CM, cfg.gcDepth, SHAPE.Certs(), Delivered(CM, log), Genesis(CM), s);
    VisibleLayered(CM, cfg.gcDepth, SHAPE.Certs(), Delivered(CM, log), Genesis(CM), s, l);
    OrderDagExact(s, l, cfg.gcDepth);
    EverythingVisible(cfg, log, s);
    SHAPE.StepDown(v, 2, 2, 0);
    SelfReach(v, l);
    forall c | c in OrderDag(s, l, cfg.gcDepth)
      ensures c == l || c == C(0, 1)
    {
      FirstReach(v, c);
    }
  }

  lemma SelfReach(v: set<Certificate>, c: Certificate)
    ensures Reaches(v, c, c)
  {
  }

  lemma AccountedKeys(cm: Committee, committed: set<Certificate>, s: State)
    requires Accounted(cm, committed, s)
    ensures s.lastCommitted.Keys == set k | k in cm.keys
  {
  }

  /** What both runs know after their first commit. */
  ghost predicate AfterFirst(s: State) {
    && s.lastCommittedRound == 2 && s.lastCommitted.Keys == {0, 1, 2}
    && s.lastCommitted[0] == 1 && s.lastCommitted[1] == 0 && s.lastCommitted[2] == 2
    && C(2, 1) !in s.dag
  }

  lemma FirstStands(s: State)
    requires CM.Valid() && Accounted(CM, Genesis(CM) + {C(0, 1), C(2, 2)}, s)
    ensures s.lastCommitted.Keys == {0, 1, 2} && s.lastCommitted[0] == 1 && s.lastCommitted[1] == 0 && s.lastCommitted[2] == 2
  {
    hide Shape.Cert, Accounted;
    SHAPE.Slots();
    var committed := Genesis(CM) + {C(0, 1), C(2, 2)};
    AccountedKeys(CM, committed, s);
    assert CM.keys[0] == 0 && CM.keys[1] == 1 && CM.keys[2] == 2;
    assert forall k :: k in CM.keys <==> k == 0 || k == 1 || k == 2;
    assert GenesisOf(1) in Genesis(CM);
    StandsAt(CM, s, committed, C(0, 1));
    StandsAt(CM, s, committed, C(2, 2));
    StandsAt(CM, s, committed, GenesisOf(1));
  }

  lemma FirstCommit(cfg: Config, before: seq<Certificate>)
    requires IsConfig(cfg) && InOrder(SHAPE, before) && InOrder(SHAPE, before + [C(0, 3)]) && NoRepeats(before)
    requires C(0, 1) in before && C(2, 2) in before && C(0, 3) !in before && C(0, 5) !in before + [C(0, 3)]
    ensures CM.Valid()
    ensures var n := Run(cfg, before + [C(0, 3)]);
            && AfterFirst(n.s)
            && Members(n.out) == {C(0, 1), C(2, 2)} && n.leaders == [C(2, 2)]
  {
    hide Run, Inv, Shape.Cert, Shape.Certs, OrderDag, GoodDag, Causal, Delivered, NeverStale, InOrder, Kept, UpdateAll, Accounted;
    var log := before + [C(0, 3)];
    Settings(cfg, before);
    Setting(log);
    RoundAfter(cfg, before);
    RoundAfter(cfg, log);
    SHAPE.Slots();
    QuietState(cfg, SHAPE.Certs(), before);
    QuietLeaders(cfg, SHAPE.Certs(), before);
    var s, leader := NextCommit(cfg, SHAPE.Certs(), before, C(0, 3));
    assert Genesis(CM) + Members([]) == Genesis(CM);
    InvBasics(CM, cfg.gcDepth, SHAPE.Certs(), Delivered(CM, log), Genesis(CM), s);
    SHAPE.IsCert(leader);
    assert leader == C(2, 2);
    HeldBefore(before, s, C(0, 1));
    HeldBefore(before, s, C(2, 2));
    FirstSubDag(cfg, log, s);
    OnlyLeader(cfg, s, leader);
    OneCommit(cfg, s, leader);
    var n := Run(cfg, log);
    assert [] + OrderDag(s, leader, cfg.gcDepth) == OrderDag(s, leader, cfg.gcDepth);
    RunSound(cfg, SHAPE.Certs(), log);
    InvAccounted(CM, cfg.gcDepth, SHAPE.Certs(), Delivered(CM, log), Genesis(CM) + Members(n.out), n.s);
    FirstStands(n.s);
    NotKept(n.s, cfg.gcDepth);
  }

  /** A commit of one leader: its sub-DAG, and a DAG cleaned up for it. */
  lemma OneCommit(cfg: Config, s: State, leader: Certificate)
    requires leader in OrderDag(s, leader, cfg.gcDepth)
    ensures var (t, out) := CommitLeaders(s, [leader], cfg.gcDepth);
            && out == OrderDag(s, leader, cfg.gcDepth)
            && forall x :: x in t.dag ==> Kept(t.lastCommitted, t.lastCommittedRound, cfg.gcDepth, x)
  {
    hide OrderDag, Kept;
    CommitLeadersUnfold(s, [leader], cfg.gcDepth);
    UpdateAllKept(s, OrderDag(s, leader, cfg.gcDepth), cfg.gcDepth);
    assert [leader][..0] == [];
    assert CommitLeaders(s, [leader], cfg.gcDepth).0 == UpdateAll(s, OrderDag(s, leader, cfg.gcDepth), cfg.gcDepth);
    assert OrderDag(s, leader, cfg.gcDepth) + [] == OrderDag(s, leader, cfg.gcDepth);
  }

  lemma NotKept(s: State, gcDepth: Round)
    requires 2 in s.lastCommitted && s.lastCommitted[2] == 2
    ensures !Kept(s.lastCommitted, s.lastCommittedRound, gcDepth, C(2, 1))
  {
    SHAPE.Slots();
  }

  lemma HeldBefore(before: seq<Certificate>, s: State, c: Certificate)
    requires c in before && Delivered(CM, before) <= s.dag
    ensures c in s.dag
  {
  }

  lemma OnlyLeader(cfg: Config, s: State, leader: Certificate)
    requires cfg.committee.Valid() && 1 <= cfg.walkStep && leader.round < s.lastCommittedRound + 3
    ensures OrderLeaders(cfg, s, leader) == [leader] && Reversed([leader]) == [leader]
  {
    assert RoundsDown(leader.round - cfg.walkStep, s.lastCommittedRound + 2) == [];
    assert [leader][1..] == [];
  }

  // ----- The second commit -----

  /** A node on its way to the second commit: what the first one left, with more certificates stored. */
  ghost predicate Waiting(s: State, t: State, held: set<Certificate>) {
    && t.lastCommittedRound == s.lastCommittedRound && t.lastCommitted == s.lastCommitted
    && held <= t.dag
  }

  lemma StoreOne(cfg: Config, log: seq<Certificate>, s: State, held: set<Certificate>, k: Key, r: Round)
    requires IsConfig(cfg) && CM.Valid() && Waiting(s, Run(cfg, log).s, held) && s.lastCommittedRound == 2
    requires r % 2 == 0 || r <= 3
    requires forall c :: c in held ==> c.author != k || c.round != r
    ensures var n, m := Run(cfg, log), Run(cfg, log + [C(k, r)]);
            && m.out == n.out && m.leaders == n.leaders && Waiting(s, m.s, held + {C(k, r)})
            && (C(2, 1) !in n.s.dag && (k != 2 || r != 1) ==> C(2, 1) !in m.s.dag)
  {
    hide Run, Shape.Cert;
    SHAPE.Slots();
    StoredOnly(cfg, log, C(k, r));
  }

  lemma StoreTail(cfg: Config, log: seq<Certificate>, s: State, held: set<Certificate>)
    requires IsConfig(cfg) && CM.Valid() && Waiting(s, Run(cfg, log).s, held) && s.lastCommittedRound == 2
    requires held <= {C(2, 1)}
    ensures var n, m := Run(cfg, log), Run(cfg, Tail(log));
            && m.out == n.out && m.leaders == n.leaders
            && Waiting(s, m.s, held + {C(1, 2)} + {C(1, 3)} + {C(0, 4)} + {C(1, 4)})
            && (C(2, 1) !in n.s.dag ==> C(2, 1) !in m.s.dag)
  {
    hide Run, Shape.Cert, Waiting;
    SHAPE.Slots();
    StoreOne(cfg, log, s, held, 1, 2);
    StoreOne(cfg, log + [C(1, 2)], s, held + {C(1, 2)}, 1, 3);
    StoreOne(cfg, log + [C(1, 2)] + [C(1, 3)], s, held + {C(1, 2)} + {C(1, 3)}, 0, 4);
    StoreOne(cfg, log + [C(1, 2)] + [C(1, 3)] + [C(0, 4)], s, held + {C(1, 2)} + {C(1, 3)} + {C(0, 4)}, 1, 4);
  }

  /** The second sub-DAG holds the first certificate of authority 2 exactly if the node still has it. */
  lemma SecondSubDag(cfg: Config, log: seq<Certificate>, s: State, committed: set<Certificate>)
    requires IsConfig(cfg) && CM.Valid() && InOrder(SHAPE, log)
    requires Inv(CM, cfg.gcDepth, SHAPE.Certs(), Delivered(CM, log), committed, s)
    requires s.lastCommittedRound == 2 && s.lastCommitted.Keys == {0, 1, 2}
    requires s.lastCommitted[0] == 1 && s.lastCommitted[1] == 0 && s.lastCommitted[2] == 2
    requires {C(1, 2), C(1, 3), C(1, 4)} <= s.dag
    ensures C(2, 1) in OrderDag(s, C(1, 4), cfg.gcDepth) <==> C(2, 1) in s.dag
  {
    hide Inv, Shape.Cert, Shape.Certs, OrderDag, Layered, Reaches, InOrder;
    var l, v := C(1, 4), Visible(s);
    SHAPE.Slots();
    InvBasics(CM, cfg.gcDepth, SHAPE.Certs(), Delivered(CM, log), committed, s);
    VisibleLayered(CM, cfg.gcDepth, SHAPE.Certs(), Delivered(CM, log), committed, s, l);
    OrderDagExact(s, l, cfg.gcDepth);
    if C(2, 1) in s.dag {
      SHAPE.StepDown(v, 1, 4, 1);
      SHAPE.StepDown(v, 1, 3, 1);
      SHAPE.StepDown(v, 1, 2, 2);
      ReachesTransitive(v, l, C(1, 3), C(1, 2));
      ReachesTransitive(v, l, C(1, 2), C(2, 1));
    }
    if Reaches(v, l, C(2, 1)) {
      ReachesRound(v, l, C(2, 1));
    }
  }

  lemma SecondCommit(cfg: Config, before: seq<Certificate>, s: State, held: set<Certificate>)
    requires IsConfig(cfg) && CM.Valid() && InOrder(SHAPE, before) && InOrder(SHAPE, before + [C(0, 5)])
    requires C(0, 3) in before && C(0, 5) !in before
    requires AfterFirst(s) && Waiting(s, Run(cfg, before).s, held) && {C(1, 2), C(1, 3), C(1, 4)} <= held
    ensures var n, m := Run(cfg, before), Run(cfg, before + [C(0, 5)]);
            && m.leaders == n.leaders + [C(1, 4)]
            && n.out <= m.out
            && (C(2, 1) in m.out <==> C(2, 1) in n.out || C(2, 1) in n.s.dag)
  {
    hide Run, Inv, Shape.Cert, Shape.Certs, OrderDag, GoodDag, Causal, Delivered, InOrder, Kept;
    var log := before + [C(0, 5)];
    var n := Run(cfg, before);
    Setting(log);
    RoundAfter(cfg, before);
    RoundAfter(cfg, log);
    SHAPE.Slots();
    var t, leader := NextCommit(cfg, SHAPE.Certs(), before, C(0, 5));
    InvBasics(CM, cfg.gcDepth, SHAPE.Certs(), Delivered(CM, log), Genesis(CM) + Members(n.out), t);
    SHAPE.IsCert(leader);
    assert leader == C(1, 4);
    SecondSubDag(cfg, log, t, Genesis(CM) + Members(n.out));
    OnlyLeader(cfg, t, leader);
    OrderDagBounds(CM, cfg.gcDepth, SHAPE.Certs(), Delivered(CM, log), Genesis(CM) + Members(n.out), t, leader);
    OneCommit(cfg, t, leader);
  }

  // ----- The two runs -----

  lemma LateRun(cfg: Config)
    requires IsConfig(cfg)
    ensures CM.Valid() && Run(cfg, LATE_LOG).leaders == [C(2, 2), C(1, 4)] && C(2, 1) in Run(cfg, LATE_LOG).out
  {
    hide Run, Shape.Cert, InOrder, Waiting, Tail;
    SHAPE.Slots();
    LateInOrder();
    var first := QUIET + [C(0, 3)];
    FirstCommit(cfg, QUIET);
    var s := Run(cfg, first).s;
    StartWaiting(s);
    StoreOne(cfg, first, s, {}, 2, 1);
    StoreTail(cfg, first + [C(2, 1)], s, {} + {C(2, 1)});
    InTail(first + [C(2, 1)]);
    var held := {} + {C(2, 1)} + {C(1, 2)} + {C(1, 3)} + {C(0, 4)} + {C(1, 4)};
    Held(s, Run(cfg, Tail(first + [C(2, 1)])).s, held, C(2, 1));
    SecondCommit(cfg, Tail(first + [C(2, 1)]), s, held);
  }

  lemma EarlyRun(cfg: Config)
    requires IsConfig(cfg)
    ensures CM.Valid() && Run(cfg, EARLY_LOG).leaders == [C(2, 2), C(1, 4)] && C(2, 1) !in Run(cfg, EARLY_LOG).out
  {
    hide Run, Shape.Cert, InOrder, Waiting, Tail;
    SHAPE.Slots();
    EarlyInOrder();
    var first := EARLY + [C(0, 3)];
    FirstCommit(cfg, EARLY);
    var n := Run(cfg, first);
    assert C(2, 1) !in Members(n.out);
    StartWaiting(n.s);
    StoreTail(cfg, first, n.s, {});
    InTail(first);
    SecondCommit(cfg, Tail(first), n.s, {} + {C(1, 2)} + {C(1, 3)} + {C(0, 4)} + {C(1, 4)});
  }

  lemma StartWaiting(s: State)
    ensures Waiting(s, s, {})
  {
  }

  lemma Held(s: State, t: State, held: set<Certificate>, c: Certificate)
    requires Waiting(s, t, held) && c in held
    ensures c in t.dag
  {
  }

  lemma InTail(log: seq<Certificate>)
    requires C(0, 3) in log && C(0, 5) !in log
    ensures C(0, 3) in Tail(log) && C(0, 5) !in Tail(log)
  {
    hide Shape.Cert;
    SHAPE.Slots();
  }

  lemma SameCertificates()
    ensures Members(LATE_LOG) == Members(EARLY_LOG) && NoRepeats(LATE_LOG) && NoRepeats(EARLY_LOG)
  {
    hide Shape.Cert;
    SHAPE.Slots();
  }

  /** The second certificate of authority 2 is not built on its first. */
  lemma NotOwnHistory()
    ensures !OwnHistory(SHAPE.Certs())
  {
    hide Shape.Cert, Shape.Certs;
    SHAPE.Slots();
    var a, b, u := C(2, 1), C(2, 2), SHAPE.Certs();
    SHAPE.CertIn(2, 1);
    SHAPE.CertIn(2, 2);
    if Reaches(u, b, a) {
      var y :| y in u && y.round < 2 && Edge(b, y) && Reaches(u, y, a);
      SHAPE.EdgeIs(2, 2, y);
      ReachesRound(u, y, a);
    }
  }

  /**
   * Without the own-history hypothesis the same leaders do not give the same output: on a valid DAG, with the same
   * certificates delivered causally and once each, whichever way the walk goes and whatever the garbage-collection depth.
   */
  lemma SameLeadersDifferentOutput(cfg: Config)
    requires cfg.committee == CM && !cfg.dynamic && 1 <= cfg.walkStep && 1 <= cfg.gcDepth
    ensures CM.Valid() && GoodDag(CM, SHAPE.Certs()) && !OwnHistory(SHAPE.Certs())
    ensures Causal(CM, SHAPE.Certs(), LATE_LOG) && NeverStale(cfg, LATE_LOG)
    ensures Causal(CM, SHAPE.Certs(), EARLY_LOG) && NeverStale(cfg, EARLY_LOG)
    ensures Members(LATE_LOG) == Members(EARLY_LOG)
    ensures Run(cfg, LATE_LOG).leaders == Run(cfg, EARLY_LOG).leaders == [C(2, 2), C(1, 4)]
    ensures C(2, 1) in Run(cfg, LATE_LOG).out && C(2, 1) !in Run(cfg, EARLY_LOG).out
    ensures IntactRun(cfg, SHAPE.Certs(), LATE_LOG) && !IntactRun(cfg, SHAPE.Certs(), EARLY_LOG)
  {
    hide Run, InOrder, GoodDag, Causal, NeverStale, OwnHistory, Shape.Cert, Shape.Certs, IntactRun;
    LateInOrder();
    EarlyInOrder();
    SameCertificates();
    NotOwnHistory();
    Settings(cfg, LATE_LOG);
    Settings(cfg, EARLY_LOG);
    LateRun(cfg);
    EarlyRun(cfg);
    LateIsIntact(cfg);
    NotBothIntact(cfg);
  }

  // ----- Memory is intact in the late run -----

  /** Whatever was delivered is output or still held. */
  ghost predicate Dropless(cfg: Config, log: seq<Certificate>)
    requires cfg.committee.Valid()
  {
    forall x :: x in Delivered(cfg.committee, log) && x !in Genesis(cfg.committee) + Members(Run(cfg, log).out) ==>
      x in Run(cfg, log).s.dag
  }

  lemma InsertHolds(u: set<Certificate>, s: State, c: Certificate, x: Certificate)
    requires SlotUnique(u) && x in u && c in u && (x in s.dag || x == c)
    ensures x in Insert(s, c).dag
  {
  }

  lemma StoreKeepsIntact(cfg: Config, u: set<Certificate>, before: seq<Certificate>, c: Certificate)
    requires !cfg.dynamic && GoodDag(cfg.committee, u) && cfg.committee.Valid() && Causal(cfg.committee, u, before + [c])
    requires IntactRun(cfg, u, before) && Dropless(cfg, before)
    requires c.round % 2 == 0 || c.round < 3 || c.round <= Run(cfg, before).s.lastCommittedRound + 1
    ensures IntactRun(cfg, u, before + [c]) && Dropless(cfg, before + [c])
    ensures Run(cfg, before + [c]).s.lastCommittedRound == Run(cfg, before).s.lastCommittedRound
  {
    hide Run, GoodDag, Decide, LeadersToCommit, Genesis;
    var log := before + [c];
    assert log[..|log| - 1] == before;
    GoodUnique(cfg.committee, u);
    CausalInside(cfg.committee, u, log);
    DeliveredStep(cfg.committee, log);
    StoredOnly(cfg, before, c);
    DecideWaits(cfg, Insert(Run(cfg, before).s, c), c.round);
    forall x | x in Delivered(cfg.committee, log) && x !in Genesis(cfg.committee) + Members(Run(cfg, log).out)
      ensures x in Run(cfg, log).s.dag
    {
      InGoodDag(cfg.committee, u, log, x);
      InsertHolds(u, Run(cfg, before).s, c, x);
    }
  }

  lemma InGoodDag(cm: Committee, u: set<Certificate>, log: seq<Certificate>, x: Certificate)
    requires GoodDag(cm, u) && Causal(cm, u, log) && x in Delivered(cm, log)
    ensures x in u
  {
    hide GoodDag, Causal;
    GenesisIncluded(cm, u);
    CausalInside(cm, u, log);
  }

  lemma HeldIsIntact(cm: Committee, gcDepth: Round, u: set<Certificate>, delivered: set<Certificate>,
                     committed: set<Certificate>, s: State, leader: Certificate)
    requires Inv(cm, gcDepth, u, delivered, committed, s) && Tight(committed, s) && leader in delivered
    requires forall x :: x in delivered && x !in committed ==> x in s.dag
    ensures Intact(u, committed, s, gcDepth, leader)
  {
    InvHistory(cm, gcDepth, u, delivered, committed, s);
    hide Inv;
    forall x | x in Pending(u, committed, s.lastCommittedRound, gcDepth, leader)
      ensures x in s.dag
    {
      ReachesInside(u, delivered, leader, x);
    }
  }

  lemma OneLeaderIntact(cfg: Config, u: set<Certificate>, out: seq<Certificate>, s: State, leader: Certificate)
    requires Intact(u, Genesis(cfg.committee) + Members(out), s, cfg.gcDepth, leader)
    ensures IntactCommit(cfg, u, out, s, [leader])
  {
    hide Intact, OrderDag, CommitOne;
    assert [leader][..0] == [];
  }

  /** A commit of one leader from a memory that dropped nothing. */
  lemma CommitKeepsIntact(cfg: Config, u: set<Certificate>, before: seq<Certificate>, c: Certificate)
    requires !cfg.dynamic && 1 <= cfg.walkStep && GoodDag(cfg.committee, u) && cfg.committee.Valid()
    requires Causal(cfg.committee, u, before + [c]) && NeverStale(cfg, before + [c])
    requires IntactRun(cfg, u, before) && Dropless(cfg, before) && c.round < Run(cfg, before).s.lastCommittedRound + 4
    ensures IntactRun(cfg, u, before + [c])
  {
    hide Run, GoodDag, Genesis, Inv, Tight, OrderLeaders, Committable, Decide, IntactCommit, Intact, Delivered;
    var cm, log, n := cfg.committee, before + [c], Run(cfg, before);
    assert log[..|log| - 1] == before;
    var (s, ls) := ToCommit(cfg, n, c);
    var committed, after := Genesis(cm) + Members(n.out), Delivered(cm, log);
    RunSound(cfg, u, before);
    RunFresh(cfg, u, before);
    DeliveredStep(cm, log);
    InvBasics(cm, cfg.gcDepth, u, Delivered(cm, before), committed, n.s);
    InvInsert(cm, cfg.gcDepth, u, Delivered(cm, before), committed, n.s, c);
    if Decide(cfg, s, c.round).Commit? {
      var leader := Decide(cfg, s, c.round).leader;
      InvBasics(cm, cfg.gcDepth, u, after, committed, s);
      DecideCommits(cfg, s, c.round);
      OnlyLeader(cfg, s, leader);
      assert ls == [leader];
      HeldIsIntact(cm, cfg.gcDepth, u, after, committed, s, leader);
      OneLeaderIntact(cfg, u, n.out, s, leader);
    } else {
      IntactNothing(cfg, u, n.out, s);
    }
  }

  lemma {:induction false} Prefixes(cfg: Config, u: set<Certificate>, a: seq<Certificate>, b: seq<Certificate>)
    requires cfg.committee.Valid() && Causal(cfg.committee, u, a + b) && NeverStale(cfg, a + b)
    ensures Causal(cfg.committee, u, a) && NeverStale(cfg, a)
    decreases |b|
  {
    hide Run, NotStale, Delivered;
    if b == [] {
      assert a + b == a;
    } else {
      assert (a + b)[..|a + b| - 1] == a + b[..|b| - 1];
      Prefixes(cfg, u, a, b[..|b| - 1]);
    }
  }

  lemma StartIntact(cfg: Config)
    requires IsConfig(cfg) && CM.Valid() && GoodDag(CM, SHAPE.Certs()) && Causal(CM, SHAPE.Certs(), QUIET)
    ensures IntactRun(cfg, SHAPE.Certs(), QUIET) && Dropless(cfg, QUIET) && Run(cfg, QUIET).s.lastCommittedRound == 0
  {
    hide Shape.Cert, Shape.Certs, GoodDag, IntactCommit, ToCommit, Deliver;
    SHAPE.Slots();
    var none: seq<Certificate> := [];
    var one: seq<Certificate> := [C(0, 1)];
    assert Run(cfg, none).s.lastCommittedRound == 0 && IntactRun(cfg, SHAPE.Certs(), none) && Dropless(cfg, none);
    hide IntactRun, Dropless, Run, Causal;
    assert none + one == one;
    CausalStep(SHAPE.Certs(), one + [C(0, 2)], C(2, 2));
    CausalStep(SHAPE.Certs(), one, C(0, 2));
    StoreKeepsIntact(cfg, SHAPE.Certs(), none, C(0, 1));
    StoreKeepsIntact(cfg, SHAPE.Certs(), one, C(0, 2));
    StoreKeepsIntact(cfg, SHAPE.Certs(), one + [C(0, 2)], C(2, 2));
  }

  lemma CausalStep(u: set<Certificate>, log: seq<Certificate>, c: Certificate)
    requires Causal(CM, u, log + [c])
    ensures Causal(CM, u, log)
  {
    assert (log + [c])[..|log|] == log;
  }

  lemma FirstDropless(cfg: Config)
    requires IsConfig(cfg) && CM.Valid() && GoodDag(CM, SHAPE.Certs()) && Causal(CM, SHAPE.Certs(), QUIET + [C(0, 3)])
    requires AfterFirst(Run(cfg, QUIET + [C(0, 3)]).s) && Members(Run(cfg, QUIET + [C(0, 3)]).out) == {C(0, 1), C(2, 2)}
    ensures Dropless(cfg, QUIET + [C(0, 3)])
  {
    hide Shape.Cert, Shape.Certs, GoodDag, Causal, Run, Inv;
    SHAPE.Slots();
    var log := QUIET + [C(0, 3)];
    RunSound(cfg, SHAPE.Certs(), log);
    RecentAllRetained(CM, cfg.gcDepth, SHAPE.Certs(), Delivered(CM, log), Genesis(CM) + Members(Run(cfg, log).out),
                      Run(cfg, log).s, 2);
  }

  lemma TailIntact(cfg: Config, log: seq<Certificate>)
    requires IsConfig(cfg) && CM.Valid() && GoodDag(CM, SHAPE.Certs()) && Causal(CM, SHAPE.Certs(), Tail(log))
    requires IntactRun(cfg, SHAPE.Certs(), log) && Dropless(cfg, log) && Run(cfg, log).s.lastCommittedRound == 2
    ensures IntactRun(cfg, SHAPE.Certs(), Tail(log)) && Dropless(cfg, Tail(log))
    ensures Run(cfg, Tail(log)).s.lastCommittedRound == 2
  {
    hide Shape.Cert, Shape.Certs, GoodDag, Causal, Run, IntactRun, Dropless;
    SHAPE.Slots();
    var u, l1 := SHAPE.Certs(), log + [C(1, 2)];
    var l2 := l1 + [C(1, 3)];
    var l3 := l2 + [C(0, 4)];
    CausalStep(u, l3, C(1, 4));
    CausalStep(u, l2, C(0, 4));
    CausalStep(u, l1, C(1, 3));
    StoreKeepsIntact(cfg, u, log, C(1, 2));
    StoreKeepsIntact(cfg, u, l1, C(1, 3));
    StoreKeepsIntact(cfg, u, l2, C(0, 4));
    StoreKeepsIntact(cfg, u, l3, C(1, 4));
  }

  /** The certificate that the early run drops reaches the late run after its author's later one was committed. */
  lemma LateIsIntact(cfg: Config)
    requires IsConfig(cfg) && CM.Valid() && GoodDag(CM, SHAPE.Certs())
    requires Causal(CM, SHAPE.Certs(), LATE_LOG) && NeverStale(cfg, LATE_LOG)
    ensures IntactRun(cfg, SHAPE.Certs(), LATE_LOG)
  {
    hide Shape.Cert, Shape.Certs, GoodDag, Causal, Run, IntactRun, Dropless, NeverStale, Tail, InOrder, QUIET;
    SHAPE.Slots();
    var u, first := SHAPE.Certs(), QUIET + [C(0, 3)];
    var late := first + [C(2, 1)];
    LateInOrder();
    LateFirst(cfg);
    Prefixes(cfg, u, Tail(late), [C(0, 5)]);
    TailExtends(late);
    Prefixes(cfg, u, late, [C(1, 2)] + [C(1, 3)] + [C(0, 4)] + [C(1, 4)]);
    Prefixes(cfg, u, first, [C(2, 1)]);
    Prefixes(cfg, u, QUIET, [C(0, 3)]);
    StartIntact(cfg);
    CommitKeepsIntact(cfg, u, QUIET, C(0, 3));
    FirstDropless(cfg);
    StoreKeepsIntact(cfg, u, first, C(2, 1));
    TailIntact(cfg, late);
    CommitKeepsIntact(cfg, u, Tail(late), C(0, 5));
  }

  lemma TailExtends(log: seq<Certificate>)
    ensures Tail(log) == log + ([C(1, 2)] + [C(1, 3)] + [C(0, 4)] + [C(1, 4)])
  {
    hide Shape.Cert;
  }

  lemma LateFirst(cfg: Config)
    requires IsConfig(cfg)
    ensures CM.Valid() && AfterFirst(Run(cfg, QUIET + [C(0, 3)]).s)
    ensures Members(Run(cfg, QUIET + [C(0, 3)]).out) == {C(0, 1), C(2, 2)}
  {
    hide Run, Shape.Cert, InOrder;
    SHAPE.Slots();
    LateInOrder();
    FirstCommit(cfg, QUIET);
  }

  lemma NotBothIntact(cfg: Config)
    requires cfg.committee == CM && CM.Valid() && 1 <= cfg.walkStep && GoodDag(CM, SHAPE.Certs())
    requires Causal(CM, SHAPE.Certs(), LATE_LOG) && Causal(CM, SHAPE.Certs(), EARLY_LOG)
    requires Run(cfg, LATE_LOG).leaders == Run(cfg, EARLY_LOG).leaders
    requires Run(cfg, LATE_LOG).out != Run(cfg, EARLY_LOG).out
    ensures !IntactRun(cfg, SHAPE.Certs(), LATE_LOG) || !IntactRun(cfg, SHAPE.Certs(), EARLY_LOG)
  {
    hide Run, GoodDag, Causal, IntactRun, Shape.Certs;
    if IntactRun(cfg, SHAPE.Certs(), LATE_LOG) {
      SameLeadersSameOutput(cfg, SHAPE.Certs(), LATE_LOG, EARLY_LOG);
    }
  }
}
