/**
 * Two honest nodes in adversary mode, the same certificates, nothing delivered twice, every author on top of its own history:
 * they see different quorums of a wave first, give its fallback different verdicts and output conflicting sequences.
 */
module SplitVerdict {
  import opened Collections
  import opened Committees
  import opened Dags
  import opened Engine
  import opened SubDags
  import opened Commits
  import opened Agreement
  import opened Fallback
  import opened Verdicts
  import opened ConcreteRuns

  // Stakes 1, 4, 1: quorum 5, so authority 1 with any other. The fallbacks are 0 at round 2 and 1 at round 6.
  const CM := Committee([0, 1, 2], map[0 := 1, 1 := 4, 2 := 1], map[])

  predicate Present(k: Key, r: Round) {
    k < 3 && r <= 9
  }

  // Up to round 4 only authority 0 builds on its own certificates; at round 5 authority 1 does too.
  function ParentKeys(k: Key, r: Round): seq<Key> {
    if 6 <= r then [0, 1, 2] else if k == 0 || (k == 1 && r == 5) then [0, 1] else [1, 2]
  }

  const SHAPE := Shape(CM, 9, Present, ParentKeys)

  function C(k: Key, r: Round): Certificate {
    SHAPE.Cert(k, r)
  }

  // ----- The deliveries -----

  function Row(a: Key, b: Key, c: Key, r: Round): seq<Certificate> {
    [C(a, r)] + [C(b, r)] + [C(c, r)]
  }

  /** Rounds 1 to 4 in full. */
  const START: seq<Certificate> := [] + Row(0, 1, 2, 1) + Row(0, 1, 2, 2) + Row(0, 1, 2, 3) + Row(0, 1, 2, 4)

  /** Round 5 in an order of one's own, with authority 1 first, then rounds 6 to 9 in full. */
  function Fifth(b: Key): seq<Certificate> {
    START + [C(1, 5)] + [C(b, 5)]
  }

  function Log(b: Key): seq<Certificate>
    requires b <= 2
  {
    START + Row(1, b, 2 - b, 5) + Row(0, 1, 2, 6) + Row(0, 1, 2, 7) + Row(0, 1, 2, 8) + Row(0, 1, 2, 9)
  }

  /** The log holds exactly the certificates of rounds 1 to `r`. */
  ghost predicate Filled(log: seq<Certificate>, r: Round) {
    && InOrder(SHAPE, log) && NoRepeats(log)
    && (forall x :: x in log ==> x.author < 3 && 1 <= x.round <= r && x == C(x.author, x.round))
    && (forall k, i :: k < 3 && 1 <= i <= r ==> C(k, i) in log)
  }

  lemma Permutation(a: Key, b: Key, c: Key, k: Key)
    requires a < 3 && b < 3 && c < 3 && a != b && b != c && a != c && k < 3
    ensures k == a || k == b || k == c
  {
  }

  lemma OneMore(log: seq<Certificate>, k: Key, r: Round)
    requires InOrder(SHAPE, log) && NoRepeats(log) && k < 3 && 1 <= r <= 9 && C(k, r) !in log
    requires 1 < r ==> C(0, r - 1) in log && C(1, r - 1) in log && C(2, r - 1) in log
    ensures InOrder(SHAPE, log + [C(k, r)]) && NoRepeats(log + [C(k, r)])
  {
    hide Shape.Cert, InOrder, NoRepeats;
    assert forall p :: p in ParentKeys(k, r) ==> p == 0 || p == 1 || p == 2;
    assert CM.keys[k] == k;
    InOrderStep(SHAPE, log, k, r);
    DistinctStep(log, C(k, r));
  }

  lemma AddRow(log: seq<Certificate>, a: Key, b: Key, c: Key, r: Round)
    requires 1 <= r <= 9 && Filled(log, r - 1)
    requires a < 3 && b < 3 && c < 3 && a != b && b != c && a != c
    ensures Filled(log + Row(a, b, c, r), r)
  {
    hide Shape.Cert, InOrder, NoRepeats;
    SHAPE.Slots();
    var l1, l2, l3 := log + [C(a, r)], log + [C(a, r)] + [C(b, r)], log + [C(a, r)] + [C(b, r)] + [C(c, r)];
    OneMore(log, a, r);
    OneMore(l1, b, r);
    OneMore(l2, c, r);
    assert log + Row(a, b, c, r) == l3;
    forall k, i | k < 3 && 1 <= i <= r
      ensures C(k, i) in l3
    {
      Permutation(a, b, c, k);
    }
  }

  lemma NothingFilled()
    ensures Filled([], 0)
  {
    EmptyInOrder(SHAPE);
  }

  lemma StartFilled()
    ensures Filled(START, 4)
  {
    hide Filled, Row;
    NothingFilled();
    AddRow([], 0, 1, 2, 1);
    AddRow([] + Row(0, 1, 2, 1), 0, 1, 2, 2);
    AddRow([] + Row(0, 1, 2, 1) + Row(0, 1, 2, 2), 0, 1, 2, 3);
    AddRow([] + Row(0, 1, 2, 1) + Row(0, 1, 2, 2) + Row(0, 1, 2, 3), 0, 1, 2, 4);
  }

  lemma LogFilled(b: Key)
    requires b == 0 || b == 2
    ensures Filled(START + Row(1, b, 2 - b, 5) + Row(0, 1, 2, 6) + Row(0, 1, 2, 7) + Row(0, 1, 2, 8), 8)
    ensures Filled(Log(b), 9)
  {
    hide Filled, Row;
    StartFilled();
    AddRow(START, 1, b, 2 - b, 5);
    AddRow(START + Row(1, b, 2 - b, 5), 0, 1, 2, 6);
    AddRow(START + Row(1, b, 2 - b, 5) + Row(0, 1, 2, 6), 0, 1, 2, 7);
    AddRow(START + Row(1, b, 2 - b, 5) + Row(0, 1, 2, 6) + Row(0, 1, 2, 7), 0, 1, 2, 8);
    AddRow(START + Row(1, b, 2 - b, 5) + Row(0, 1, 2, 6) + Row(0, 1, 2, 7) + Row(0, 1, 2, 8), 0, 1, 2, 9);
  }

  // ----- The DAG -----

  lemma WeightIs(names: set<Key>)
    ensures CM.Valid()
    ensures CM.Weight(names) == (if 0 in names then 1 else 0) + (if 1 in names then 4 else 0) + (if 2 in names then 1 else 0)
    ensures CM.QuorumThreshold() == 5
  {
    CM.OfThree(0, 1, 2, names);
  }

  lemma SlotRooted(k: Key, r: Round)
    requires k in CM.keys && 1 <= r <= 9
    ensures SHAPE.Rooted(k, r)
  {
    hide Committee.Weight, Committee.QuorumThreshold;
    var ps := ParentKeys(k, r);
    WeightIs(set p | p in ps);
    assert 1 in ps && (ps[0] == 0 || ps[1] == 2);
    assert CM.keys[0] == 0 && CM.keys[1] == 1 && CM.keys[2] == 2;
  }

  lemma ShapeIsValid()
    ensures SHAPE.Valid() && GoodDag(CM, SHAPE.Certs()) && SlotUnique(SHAPE.Certs()) && OwnHistory(SHAPE.Certs())
  {
    hide Shape.Rooted, ParentKeys, Committee.Weight, Committee.QuorumThreshold, Shape.Cert, Shape.Certs, GoodDag, OwnHistory;
    forall k, r | k in CM.keys && 1 <= r <= 9 && Present(k, r)
      ensures SHAPE.Rooted(k, r)
    {
      SlotRooted(k, r);
    }
    WeightIs({});
    SHAPE.IsGood();
    GoodUnique(CM, SHAPE.Certs());
    DagIsOwnHistory();
  }

  lemma DagIsOwnHistory()
    ensures OwnHistory(SHAPE.Certs())
  {
    hide Shape.Cert;
    forall a, b | a in SHAPE.Certs() && b in SHAPE.Certs() && a.author == b.author && 1 <= a.round < b.round
      ensures Reaches(SHAPE.Certs(), b, a)
    {
      OwnAncestor(a, b);
    }
  }

  lemma OwnAncestor(a: Certificate, b: Certificate)
    requires a in SHAPE.Certs() && b in SHAPE.Certs() && a.author == b.author && 1 <= a.round <= b.round
    ensures Reaches(SHAPE.Certs(), b, a)
  {
    hide Shape.Cert, Shape.Certs;
    SHAPE.IsCert(a);
    SHAPE.IsCert(b);
    var k := a.author;
    assert k == 0 || k == 1 || k == 2;
    forall r | a.round < r <= b.round
      ensures k in ParentKeys(k, r)
    {
      var ps := ParentKeys(k, r);
      assert ps[0] == k || ps[1] == k || (|ps| == 3 && ps[2] == k);
    }
    SelfParented(SHAPE, k, a.round, b.round);
  }

  lemma SlotIn(k: Key, r: Round)
    requires k < 3 && r <= 9
    ensures C(k, r) in SHAPE.Certs() && C(k, r).author == k && C(k, r).round == r
  {
    assert CM.keys[k] == k;
    SHAPE.CertIn(k, r);
  }

  /** Down one edge to authority `p`, then along its own certificates. */
  lemma ViaParent(k: Key, r: Round, p: Key, low: Round)
    requires k < 3 && p < 3 && 2 <= r <= 9 && 1 <= low < r && p in ParentKeys(k, r)
    ensures Reaches(SHAPE.Certs(), C(k, r), C(p, low))
  {
    hide Shape.Cert, Shape.Certs, ParentKeys;
    SlotIn(p, r - 1);
    SlotIn(p, low);
    SHAPE.StepDown(SHAPE.Certs(), k, r, p);
    OwnAncestor(C(p, low), C(p, r - 1));
    ReachesTransitive(SHAPE.Certs(), C(k, r), C(p, r - 1), C(p, low));
  }

  /** The certificates of authorities 1 and 2 up to round 4, and that of authority 2 at round 5, leave the first fallback out. */
  lemma {:induction false} LeavesOut(k: Key, r: Round)
    requires k == 2 || (k == 1 && r <= 4)
    requires r <= 5
    ensures !Reaches(SHAPE.Certs(), C(k, r), C(0, 2))
    decreases r
  {
    hide Shape.Cert, Shape.Certs;
    SHAPE.Slots();
    if Reaches(SHAPE.Certs(), C(k, r), C(0, 2)) {
      ReachesRound(SHAPE.Certs(), C(k, r), C(0, 2));
      var y :| y in SHAPE.Certs() && y.round < r && Edge(C(k, r), y) && Reaches(SHAPE.Certs(), y, C(0, 2));
      SHAPE.IsCert(y);
      SHAPE.EdgeIs(k, r, y);
      assert y.author == 1 || y.author == 2;
      LeavesOut(y.author, r - 1);
    }
  }

  lemma FirstFallback()
    ensures CM.Valid() && FallbackAt(CM, SHAPE.Certs(), 2) == Some(C(0, 2))
    ensures FallbackAt(CM, SHAPE.Certs(), 6) == Some(C(1, 6))
  {
    hide Shape.Cert, Shape.Certs, FallbackKey;
    ShapeIsValid();
    KeysAre();
    SlotIn(0, 2);
    SlotIn(1, 6);
    FallbackIn(CM, SHAPE.Certs(), SHAPE.Certs(), 2, C(0, 2));
    FallbackIn(CM, SHAPE.Certs(), SHAPE.Certs(), 6, C(1, 6));
  }

  lemma KeysAre()
    ensures CM.Valid() && FallbackKey(CM, 2) == Some(0) && FallbackKey(CM, 6) == Some(1)
  {
    WeightIs({});
    assert CM.keys[0] == 0 && CM.keys[1] == 1 && CM.keys[2] == 2;
    assert CM.Leader(2) == 2 && CM.Leader(4) == 1 && CM.Leader(6) == 0 && CM.Leader(8) == 2;
    WithoutExact(CM.keys, {2, 1});
    WithoutExact(CM.keys, {0, 2});
    assert 0 in FallbackCandidates(CM, 2) && 1 in FallbackCandidates(CM, 6);
    Drawn(2);
    Drawn(6);
  }

  lemma Drawn(first: Round)
    requires CM.Valid() && FallbackCandidates(CM, first) != []
    ensures FallbackKey(CM, first).Some? && FallbackKey(CM, first).value in CM.keys
    ensures FallbackKey(CM, first).value != CM.Leader(first) && FallbackKey(CM, first).value != CM.Leader(first + 2)
  {
    FallbackIsNotSteady(CM, first, FallbackKey(CM, first).value);
  }

  // ----- What is visible when -----

  lemma NothingAbove(log: seq<Certificate>, top: Round, r: Round)
    requires Filled(log, top) && top < r
    ensures CM.Valid() && !QuorumAt(CM, Delivered(CM, log), r)
  {
    hide Shape.Cert, InOrder, NoRepeats;
    WeightIs(Authors(AtRound(Delivered(CM, log), r)));
    assert AtRound(Delivered(CM, log), r) == {};
  }

  /** Authority 1 alone is no quorum, with any other it is one. */
  lemma AuthorsAt(log: seq<Certificate>, more: seq<Certificate>, top: Round, r: Round)
    requires Filled(log, top) && top < r && forall x :: x in more ==> x.round == r
    ensures Authors(AtRound(Delivered(CM, log + more), r)) == set x | x in more :: x.author
  {
    hide Shape.Cert, InOrder, NoRepeats;
    var s := AtRound(Delivered(CM, log + more), r);
    assert s == Members(more);
  }

  lemma {:induction false} DecisiveExtends(cm: Committee, log: seq<Certificate>, more: seq<Certificate>, r: Round)
    requires QuorumAt(cm, Delivered(cm, log), r)
    ensures Decisive(cm, log + more, r) == Decisive(cm, log, r)
    decreases |more|
  {
    hide QuorumAt;
    if more == [] {
      assert log + more == log;
    } else {
      var m := |more| - 1;
      var before := log + more[..m];
      assert (log + more)[..|log + more| - 1] == before;
      DecisiveExtends(cm, log, more[..m], r);
      QuorumGrows(cm, Delivered(cm, log), Delivered(cm, before), r);
    }
  }

  lemma TwoOfARound(log: seq<Certificate>, a: Key, b: Key, top: Round, r: Round)
    requires Filled(log, top) && top < r && a < 3 && b < 3 && a != b && (a == 1 || b == 1)
    ensures CM.Valid()
    ensures !QuorumAt(CM, Delivered(CM, log + [C(a, r)]), r) && QuorumAt(CM, Delivered(CM, log + [C(a, r)] + [C(b, r)]), r)
    ensures Authors(AtRound(Delivered(CM, log + [C(a, r)] + [C(b, r)]), r)) == {a, b}
  {
    hide Shape.Cert, Filled, Committee.Weight, Committee.QuorumThreshold;
    SHAPE.Slots();
    AuthorsAt(log, [C(a, r)], top, r);
    AuthorsAt(log, [C(a, r)] + [C(b, r)], top, r);
    assert log + ([C(a, r)] + [C(b, r)]) == log + [C(a, r)] + [C(b, r)];
    assert (set x | x in [C(a, r)] :: x.author) == {a};
    assert (set x | x in [C(a, r)] + [C(b, r)] :: x.author) == {a, b};
    WeightIs({a});
    WeightIs({a, b});
  }

  /** The second certificate of the round completes the first visible quorum. */
  lemma FirstQuorum(log: seq<Certificate>, a: Key, b: Key, rest: seq<Certificate>, top: Round, r: Round)
    requires Filled(log, top) && top < r && a < 3 && b < 3 && a != b && (a == 1 || b == 1)
    ensures CM.Valid() && Decisive(CM, log + [C(a, r)] + [C(b, r)] + rest, r) == log + [C(a, r)] + [C(b, r)]
    ensures QuorumAt(CM, Delivered(CM, log + [C(a, r)] + [C(b, r)] + rest), r)
    ensures Authors(AtRound(Delivered(CM, log + [C(a, r)] + [C(b, r)]), r)) == {a, b}
  {
    hide Shape.Cert, Filled, QuorumAt;
    var one, two := log + [C(a, r)], log + [C(a, r)] + [C(b, r)];
    TwoOfARound(log, a, b, top, r);
    assert two[..|two| - 1] == one;
    DecisiveExtends(CM, two, rest, r);
    QuorumGrows(CM, Delivered(CM, two), Delivered(CM, two + rest), r);
  }

  lemma Regroup<T>(s: seq<T>, a: seq<T>, b: seq<T>, c: seq<T>, d: seq<T>)
    ensures s + (a + b + c) + d == s + a + b + (c + d)
  {
  }

  lemma FirstWave(b: Key)
    requires b == 0 || b == 2
    ensures CM.Valid() && Decisive(CM, Log(b), 5) == Fifth(b) && QuorumAt(CM, Delivered(CM, Log(b)), 5)
    ensures Authors(AtRound(Delivered(CM, Fifth(b)), 5)) == {1, b}
  {
    hide Shape.Cert, Filled, Decisive, QuorumAt, START;
    StartFilled();
    var later := Row(0, 1, 2, 6) + Row(0, 1, 2, 7) + Row(0, 1, 2, 8) + Row(0, 1, 2, 9);
    FirstQuorum(START, 1, b, [C(2 - b, 5)] + later, 4, 5);
    Regroup(START, [C(1, 5)], [C(b, 5)], [C(2 - b, 5)], later);
    LaterRounds(b);
  }

  lemma LaterRounds(b: Key)
    requires b <= 2
    ensures Log(b) == START + Row(1, b, 2 - b, 5) + (Row(0, 1, 2, 6) + Row(0, 1, 2, 7) + Row(0, 1, 2, 8) + Row(0, 1, 2, 9))
  {
    hide Row, START;
  }

  lemma SecondWave(b: Key)
    requires b == 0 || b == 2
    ensures CM.Valid() && QuorumAt(CM, Delivered(CM, Log(b)), 9)
    ensures Authors(AtRound(Delivered(CM, Decisive(CM, Log(b), 9)), 9)) == {0, 1}
  {
    hide Shape.Cert, Filled, Decisive, QuorumAt, START;
    LogFilled(b);
    var before := START + Row(1, b, 2 - b, 5) + Row(0, 1, 2, 6) + Row(0, 1, 2, 7) + Row(0, 1, 2, 8);
    FirstQuorum(before, 0, 1, [C(2, 9)], 8, 9);
    LastRound(before);
  }

  lemma LastRound(before: seq<Certificate>)
    ensures before + Row(0, 1, 2, 9) == before + [C(0, 9)] + [C(1, 9)] + [C(2, 9)]
  {
    hide Shape.Cert;
  }

  // ----- The verdicts -----

  /** Who of a round stands behind a fallback. */
  lemma Behind(delivered: set<Certificate>, l: Certificate, names: set<Key>, who: set<Key>)
    requires delivered <= SHAPE.Certs() && Authors(AtRound(delivered, l.round + 3)) == names && who <= names
    requires forall k :: k in names ==> (Reaches(SHAPE.Certs(), C(k, l.round + 3), l) <==> k in who)
    ensures Authors(CausalSupport(SHAPE.Certs(), delivered, l)) == who
  {
    hide Shape.Cert, Shape.Certs;
    var at := AtRound(delivered, l.round + 3);
    forall x | x in at
      ensures x == C(x.author, l.round + 3) && x.author in names
    {
      SHAPE.IsCert(x);
    }
    forall k | k in who
      ensures k in Authors(CausalSupport(SHAPE.Certs(), delivered, l))
    {
      var x :| x in at && x.author == k;
      assert x in CausalSupport(SHAPE.Certs(), delivered, l);
    }
  }

  lemma InDag(log: seq<Certificate>, start: seq<Certificate>)
    requires Filled(log, 9) && start <= log
    ensures Delivered(CM, start) <= SHAPE.Certs()
  {
    hide Shape.Cert, Shape.Certs, InOrder, NoRepeats, GoodDag;
    ShapeIsValid();
    GenesisIncluded(CM, SHAPE.Certs());
    forall x | x in start
      ensures x in SHAPE.Certs()
    {
      assert x in log;
      SlotIn(x.author, x.round);
    }
  }

  lemma DecisiveInDag(b: Key, r: Round)
    requires b == 0 || b == 2
    ensures Delivered(CM, Decisive(CM, Log(b), r)) <= SHAPE.Certs()
  {
    hide Shape.Certs, Filled, Log, Decisive;
    LogFilled(b);
    DecisivePrefix(CM, Log(b), r);
    InDag(Log(b), Decisive(CM, Log(b), r));
  }

  lemma {:induction false} DecisivePrefix(cm: Committee, log: seq<Certificate>, r: Round)
    ensures Decisive(cm, log, r) <= log
    decreases |log|
  {
    hide QuorumAt;
    if log != [] && QuorumAt(cm, Delivered(cm, log[..|log| - 1]), r) {
      DecisivePrefix(cm, log[..|log| - 1], r);
    }
  }

  /** Authorities 0 and 1 have the first fallback below their certificates of round 5, authority 2 has not. */
  lemma FirstPaths()
    ensures Reaches(SHAPE.Certs(), C(0, 5), C(0, 2)) && Reaches(SHAPE.Certs(), C(1, 5), C(0, 2))
    ensures !Reaches(SHAPE.Certs(), C(2, 5), C(0, 2))
  {
    hide Shape.Cert, Shape.Certs;
    ViaParent(1, 5, 0, 2);
    ViaParent(0, 5, 0, 2);
    LeavesOut(2, 5);
  }

  lemma FirstSupport(b: Key)
    requires b == 0 || b == 2
    ensures CM.Valid()
    ensures CausallySupported(CM, SHAPE.Certs(), Delivered(CM, Decisive(CM, Log(b), 5)), C(0, 2)) <==> b == 0
  {
    hide Shape.Cert, Shape.Certs, Decisive, Committee.Weight, Committee.QuorumThreshold, CausalSupport, QuorumAt, Log, START,
      Reaches, ParentKeys;
    SHAPE.Slots();
    FirstWave(b);
    DecisiveInDag(b, 5);
    FirstPaths();
    var who: set<Key> := if b == 0 then {0, 1} else {1};
    Behind(Delivered(CM, Decisive(CM, Log(b), 5)), C(0, 2), {1, b}, who);
    WeightIs(who);
  }

  lemma SecondSupport(b: Key)
    requires b == 0 || b == 2
    ensures CM.Valid() && CausallySupported(CM, SHAPE.Certs(), Delivered(CM, Decisive(CM, Log(b), 9)), C(1, 6))
  {
    hide Shape.Cert, Shape.Certs, Decisive, Committee.Weight, Committee.QuorumThreshold, CausalSupport, QuorumAt, Log, START;
    SHAPE.Slots();
    SecondWave(b);
    DecisiveInDag(b, 9);
    ViaParent(0, 9, 1, 6);
    ViaParent(1, 9, 1, 6);
    Behind(Delivered(CM, Decisive(CM, Log(b), 9)), C(1, 6), {0, 1}, {0, 1});
    WeightIs({0, 1});
  }

  /** The node that sees authority 0 early commits the first fallback, the one that sees authority 2 early skips it. */
  lemma VerdictsAre(b: Key)
    requires b == 0 || b == 2
    ensures CM.Valid() && VerdictOn(CM, SHAPE.Certs(), Log(b), 0) == if b == 0 then [C(0, 2)] else []
    ensures VerdictOn(CM, SHAPE.Certs(), Log(b), 1) == [C(1, 6)]
  {
    hide Shape.Cert, Shape.Certs, Decisive, CausallySupported, FallbackAt, Log, START;
    FirstFallback();
    FirstSupport(b);
    SecondSupport(b);
  }

  function Adversarial(gcDepth: Round): Config {
    Config(CM, gcDepth, true, 1)
  }

  lemma Settings(b: Key, gcDepth: Round)
    requires b == 0 || b == 2
    ensures CM.Valid() && GoodDag(CM, SHAPE.Certs()) && Causal(CM, SHAPE.Certs(), Log(b))
    ensures IntactRun(Adversarial(gcDepth), SHAPE.Certs(), Log(b)) && NeverStale(Adversarial(gcDepth), Log(b))
  {
    hide Shape.Cert, Shape.Certs, InOrder, NoRepeats, GoodDag, Causal, NeverStale, OwnHistory, IntactRun;
    ShapeIsValid();
    WeightIs({});
    LogFilled(b);
    InOrderIsCausal(SHAPE, Log(b));
    DistinctIsNeverStale(Adversarial(gcDepth), SHAPE.Certs(), Log(b));
    OwnHistoryRun(Adversarial(gcDepth), SHAPE.Certs(), Log(b));
  }

  lemma LeadersOf(b: Key, gcDepth: Round)
    requires b == 0 || b == 2
    ensures CM.Valid() && Run(Adversarial(gcDepth), Log(b)).leaders == (if b == 0 then [C(0, 2)] else []) + [C(1, 6)]
  {
    hide Shape.Cert, Shape.Certs, GoodDag, Causal, Run, IntactRun, VerdictOn, QuorumAt, NeverStale, FallbacksSound, Filled;
    var cfg := Adversarial(gcDepth);
    Settings(b, gcDepth);
    LogFilled(b);
    FirstWave(b);
    SecondWave(b);
    NothingAbove(Log(b), 9, 13);
    FallbackRun(cfg, SHAPE.Certs(), Log(b));
    TwoWaves(Delivered(CM, Log(b)), Run(cfg, Log(b)));
    LeadersAreVerdicts(cfg, SHAPE.Certs(), Log(b));
    VerdictsAre(b);
    assert VerdictsUpTo(CM, SHAPE.Certs(), Log(b), 1) == [] + VerdictOn(CM, SHAPE.Certs(), Log(b), 0);
  }

  lemma TwoWaves(delivered: set<Certificate>, n: Node)
    requires WavesInOrder(CM, delivered, n)
    requires QuorumAt(CM, delivered, 5) && QuorumAt(CM, delivered, 9) && !QuorumAt(CM, delivered, 13)
    ensures |n.waves| == 2
  {
    hide QuorumAt;
    assert 4 * 0 + 5 == 5 && 4 * 1 + 5 == 9 && 4 * 2 + 5 == 13;
    assert 0 < |n.waves| <==> QuorumAt(CM, delivered, 4 * 0 + 5);
    assert 1 < |n.waves| <==> QuorumAt(CM, delivered, 4 * 1 + 5);
    assert 2 < |n.waves| <==> QuorumAt(CM, delivered, 4 * 2 + 5);
  }

  // ----- The outputs -----

  /** What the node that commits the first fallback outputs first. */
  lemma FirstSubDag(gcDepth: Round)
    ensures var xs := SubDag(SHAPE.Certs(), Genesis(CM), 0, gcDepth, C(0, 2));
            C(0, 2) in xs && C(2, 1) !in xs
  {
    hide Shape.Cert, Shape.Certs, GoodDag, SubDag;
    SHAPE.Slots();
    ShapeIsValid();
    SlotIn(0, 2);
    GenesisClosed(gcDepth);
    SubDagElements(CM, gcDepth, SHAPE.Certs(), Genesis(CM), 0, C(0, 2));
    NotBelow();
    var xs := SubDag(SHAPE.Certs(), Genesis(CM), 0, gcDepth, C(0, 2));
    assert C(2, 1) !in Pending(SHAPE.Certs(), Genesis(CM), 0, gcDepth, C(0, 2));
    assert C(0, 2) in Members(xs) && C(2, 1) !in Members(xs);
  }

  lemma GenesisClosed(gcDepth: Round)
    ensures Closed(SHAPE.Certs(), Genesis(CM), 0, gcDepth)
  {
    hide Shape.Cert, Shape.Certs;
    forall c, a | c in Genesis(CM) && a in SHAPE.Certs() && Reaches(SHAPE.Certs(), c, a)
      ensures a in Genesis(CM)
    {
      ReachesRound(SHAPE.Certs(), c, a);
    }
  }

  lemma NotBelow()
    ensures !Reaches(SHAPE.Certs(), C(0, 2), C(2, 1))
  {
    hide Shape.Cert, Shape.Certs;
    SHAPE.Slots();
    if Reaches(SHAPE.Certs(), C(0, 2), C(2, 1)) {
      var y :| y in SHAPE.Certs() && y.round < 2 && Edge(C(0, 2), y) && Reaches(SHAPE.Certs(), y, C(2, 1));
      SHAPE.EdgeIs(0, 2, y);
      ReachesRound(SHAPE.Certs(), y, C(2, 1));
    }
  }

  /** What the node that skips it outputs: lower rounds first. */
  lemma WholeSubDag(gcDepth: Round)
    ensures var xs := SubDag(SHAPE.Certs(), Genesis(CM), 0, gcDepth, C(1, 6));
            C(0, 2) in xs && C(2, 1) in xs && ByRound(xs)
  {
    hide Shape.Cert, Shape.Certs, GoodDag, SubDag;
    SHAPE.Slots();
    ShapeIsValid();
    SlotIn(1, 6);
    SlotIn(0, 2);
    SlotIn(2, 1);
    GenesisClosed(gcDepth);
    SubDagElements(CM, gcDepth, SHAPE.Certs(), Genesis(CM), 0, C(1, 6));
    ViaParent(1, 6, 0, 2);
    ViaParent(1, 6, 2, 1);
    var pending := Pending(SHAPE.Certs(), Genesis(CM), 0, gcDepth, C(1, 6));
    assert C(0, 2) in pending;
    assert C(2, 1) in pending;
    assert Members(SubDag(SHAPE.Certs(), Genesis(CM), 0, gcDepth, C(1, 6))) == pending + {C(1, 6)};
  }

  lemma OutputsOf(b: Key, gcDepth: Round)
    requires b == 0 || b == 2
    ensures CM.Valid() && NoRepeats(Run(Adversarial(gcDepth), Log(b)).out)
    ensures var first := SubDag(SHAPE.Certs(), Genesis(CM), 0, gcDepth, if b == 0 then C(0, 2) else C(1, 6));
            if b == 0 then first <= Run(Adversarial(gcDepth), Log(b)).out else Run(Adversarial(gcDepth), Log(b)).out == first
  {
    hide Shape.Cert, Shape.Certs, GoodDag, Causal, Run, IntactRun, NeverStale, Settled, SubDag;
    var cfg, u := Adversarial(gcDepth), SHAPE.Certs();
    Settings(b, gcDepth);
    LeadersOf(b, gcDepth);
    RunDeterminedExactly(cfg, u, Log(b));
    IntactRepeatsNothing(cfg, u, Log(b));
    var leader := if b == 0 then C(0, 2) else C(1, 6);
    FirstOutputs(cfg, u, leader);
    if b == 0 {
      OutputsConcat(cfg, u, [], [C(0, 2)], [C(1, 6)]);
      OutputsConcat(cfg, u, Outputs(cfg, u, [], [C(0, 2)]), [C(1, 6)], []);
    } else {
      assert [] + [C(1, 6)] == [C(1, 6)];
    }
  }

  lemma FirstOutputs(cfg: Config, u: set<Certificate>, leader: Certificate)
    ensures Outputs(cfg, u, [], [leader]) == SubDag(u, Genesis(cfg.committee), 0, cfg.gcDepth, leader)
  {
    hide SubDag;
    var none: seq<Certificate> := [];
    assert Genesis(cfg.committee) + Members(none) == Genesis(cfg.committee);
    assert Rounds(none) == {};
    assert [leader][1..] == [];
  }

  /** A sequence that starts with `x` but not `y` before it conflicts with one that has `y`, of a lower round, and `x` by round. */
  lemma OrdersConflict(first: seq<Certificate>, a: seq<Certificate>, b: seq<Certificate>, x: Certificate, y: Certificate)
    requires first <= a && x in first && y !in first && NoRepeats(a)
    requires ByRound(b) && x in b && y in b && y.round < x.round
    ensures !(a <= b) && !(b <= a)
  {
    var i :| 0 <= i < |first| && first[i] == x;
    var m :| 0 <= m < |b| && b[m] == x;
    var j :| 0 <= j < |b| && b[j] == y;
    assert j < m && a[i] == x;
    assert forall k :: 0 <= k < |first| ==> a[k] != y;
    assert forall k :: 0 <= k < |b| && b[k] == x ==> j < k;
    assert forall k :: 0 <= k < |a| && a[k] == x ==> k == i;
  }

  /**
   * The same certificates in two causal orders, memory intact on both nodes: one commits the first fallback and the other
   * skips it, and neither output is a prefix of the other.
   */
  lemma VerdictsSplit(gcDepth: Round)
    ensures CM.Valid() && GoodDag(CM, SHAPE.Certs())
    ensures Causal(CM, SHAPE.Certs(), Log(0)) && IntactRun(Adversarial(gcDepth), SHAPE.Certs(), Log(0))
    ensures Causal(CM, SHAPE.Certs(), Log(2)) && IntactRun(Adversarial(gcDepth), SHAPE.Certs(), Log(2))
    ensures Members(Log(0)) == Members(Log(2))
    ensures Run(Adversarial(gcDepth), Log(0)).leaders == [C(0, 2), C(1, 6)]
    ensures Run(Adversarial(gcDepth), Log(2)).leaders == [C(1, 6)]
    ensures !(Run(Adversarial(gcDepth), Log(0)).out <= Run(Adversarial(gcDepth), Log(2)).out)
    ensures !(Run(Adversarial(gcDepth), Log(2)).out <= Run(Adversarial(gcDepth), Log(0)).out)
  {
    hide Shape.Cert, Shape.Certs, GoodDag, Causal, Run, NeverStale, SubDag, Log, NoRepeats;
    SHAPE.Slots();
    Settings(0, gcDepth);
    Settings(2, gcDepth);
    LeadersOf(0, gcDepth);
    LeadersOf(2, gcDepth);
    OutputsOf(0, gcDepth);
    OutputsOf(2, gcDepth);
    FirstSubDag(gcDepth);
    WholeSubDag(gcDepth);
    SameCertificates();
    OrdersConflict(SubDag(SHAPE.Certs(), Genesis(CM), 0, gcDepth, C(0, 2)), Run(Adversarial(gcDepth), Log(0)).out,
                   Run(Adversarial(gcDepth), Log(2)).out, C(0, 2), C(2, 1));
  }

  lemma SameCertificates()
    ensures Members(Log(0)) == Members(Log(2))
  {
    hide Shape.Cert, InOrder, NoRepeats, Log;
    LogFilled(0);
    LogFilled(2);
    forall x
      ensures x in Log(0) <==> x in Log(2)
    {
    }
  }
}
