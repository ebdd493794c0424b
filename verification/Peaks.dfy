/**
 * When the walk as the code runs it agrees: the leaders a node commits are a function of the rounds its last committed
 * round went through, and these of what was delivered when.
 */
module Peaks {
  import opened Collections
  import opened Committees
  import opened Dags
  import opened Engine
  import opened Retention
  import opened Commits
  import opened Steady
  import opened Agreement
  import opened Anchors

  /** The highest anchor round with a supported leader, 0 if there is none. */
  ghost function Highest(cm: Committee, s: set<Certificate>): Round
    requires cm.Valid()
  {
    MaxOf(set x | x in s && AnchorRound(x.round) && SupportedRound(cm, s, x.round) :: x.round)
  }

  /** The successive highest supported anchor rounds while the log is delivered: no mention of any node's state. */
  ghost function PeaksOf(cm: Committee, log: seq<Certificate>): seq<Round>
    requires cm.Valid()
    decreases |log|
  {
    if log == [] then []
    else
      var before := log[..|log| - 1];
      var high := Highest(cm, Delivered(cm, log));
      PeaksOf(cm, before) + (if Highest(cm, Delivered(cm, before)) < high then [high] else [])
  }

  lemma HighestIs(cm: Committee, s: set<Certificate>, lcr: Round)
    requires cm.Valid() && HighestSupported(cm, s, lcr)
    ensures Highest(cm, s) == lcr
  {
    hide MaxOf;
    var rs := set x | x in s && AnchorRound(x.round) && SupportedRound(cm, s, x.round) :: x.round;
    if lcr == 0 {
      assert rs == {};
      MaxOfNone();
    } else {
      var leader :| SupportedAt(cm, s, lcr, leader);
      assert lcr in rs;
      MaxIs(rs, lcr);
    }
  }

  lemma MaxOfNone()
    ensures MaxOf({}) == 0
  {
  }

  /** The leaders committed when the last committed round goes from `low` to `peak`, oldest first. */
  ghost function Group(cfg: Config, u: set<Certificate>, low: Round, peak: Round): seq<Certificate>
    requires cfg.committee.Valid()
  {
    match LeaderAt(cfg.committee, u, peak)
    case None => []
    case Some(leader) =>
      Reversed([leader] + Walk(cfg.committee, u, RoundsDown(peak - cfg.walkStep, low + 2), leader))
  }

  ghost function LeadersOf(cfg: Config, u: set<Certificate>, low: Round, peaks: seq<Round>): seq<Certificate>
    requires cfg.committee.Valid()
    decreases |peaks|
  {
    if peaks == [] then [] else Group(cfg, u, low, peaks[0]) + LeadersOf(cfg, u, peaks[0], peaks[1..])
  }

  function Last(low: Round, peaks: seq<Round>): Round {
    if peaks == [] then low else peaks[|peaks| - 1]
  }

  lemma {:induction false} LeadersOfConcat(cfg: Config, u: set<Certificate>, low: Round, a: seq<Round>, b: seq<Round>)
    requires cfg.committee.Valid()
    ensures LeadersOf(cfg, u, low, a + b) == LeadersOf(cfg, u, low, a) + LeadersOf(cfg, u, Last(low, a), b)
    decreases |a|
  {
    hide Group;
    if a == [] {
      assert a + b == b;
    } else {
      assert (a + b)[0] == a[0] && (a + b)[1..] == a[1..] + b;
      LeadersOfConcat(cfg, u, a[0], a[1..], b);
    }
  }

  /** What one delivery adds to the leaders is the group of the new peak, if there is one. */
  lemma DeliverAddsGroup(cfg: Config, u: set<Certificate>, delivered: set<Certificate>, n: Node, c: Certificate)
    requires !cfg.dynamic && 1 <= cfg.walkStep && Sound(cfg, u, delivered, n) && cfg.committee.Valid()
    requires c in u && forall y :: y in u && Edge(c, y) ==> y in delivered
    ensures var m := Deliver(cfg, n, c);
            && n.s.lastCommittedRound <= m.s.lastCommittedRound
            && m.leaders == n.leaders + (if n.s.lastCommittedRound < m.s.lastCommittedRound
                                         then Group(cfg, u, n.s.lastCommittedRound, m.s.lastCommittedRound) else [])
            && (n.s.lastCommittedRound < m.s.lastCommittedRound ==> IsPeak(cfg.committee, u, m.s.lastCommittedRound))
  {
    hide Inv, Decide, CommitLeaders, Walk, RoundsDown, Anchor, LeaderAt, Reversed, GoodDag;
    var cm, after, s := cfg.committee, delivered + {c}, Insert(n.s, c);
    var committed := Genesis(cm) + Members(n.out);
    InvBasics(cm, cfg.gcDepth, u, delivered, committed, n.s);
    InvInsert(cm, cfg.gcDepth, u, delivered, committed, n.s, c);
    InvBasics(cm, cfg.gcDepth, u, after, committed, s);
    GoodUnique(cm, u);
    DecidedAnchor(cfg, u, after, committed, s, c.round);
    match Decide(cfg, s, c.round)
    case Wait =>
      assert n.leaders + [] == n.leaders;
    case Commit(leader) =>
      var low := s.lastCommittedRound;
      var rounds := RoundsDown(leader.round - cfg.walkStep, low + 2);
      CommitSound(cfg, u, after, s, n.out, leader);
      RoundsDownExact(leader.round - cfg.walkStep, low + 2);
      WalkOfPruned(cm, cfg.gcDepth, u, after, committed, s, rounds, leader);
      AnchorBasics(cm, u, leader);
      LookupLeader(cm, u, leader);
  }

  lemma LookupLeader(cm: Committee, u: set<Certificate>, leader: Certificate)
    requires cm.Valid() && SlotUnique(u) && leader in u && leader.author == cm.Leader(leader.round)
    ensures LeaderAt(cm, u, leader.round) == Some(leader)
  {
    LookupUnique(u, leader);
  }

  /** An anchor round that has a leader in the DAG. */
  ghost predicate IsPeak(cm: Committee, u: set<Certificate>, r: Round)
    requires cm.Valid()
  {
    AnchorRound(r) && LeaderAt(cm, u, r).Some?
  }

  /**
   * Whatever the step of the walk, the leaders a node commits are a function of the peaks of its log and the DAG of all
   * certificates.
   */
  lemma {:induction false} PeaksDetermineLeaders(cfg: Config, u: set<Certificate>, log: seq<Certificate>)
    requires !cfg.dynamic && 1 <= cfg.walkStep && GoodDag(cfg.committee, u) && Causal(cfg.committee, u, log)
    ensures cfg.committee.Valid()
    ensures var peaks := PeaksOf(cfg.committee, log);
            && Run(cfg, log).leaders == LeadersOf(cfg, u, 0, peaks)
            && Run(cfg, log).s.lastCommittedRound == Last(0, peaks)
            && forall r :: r in peaks ==> IsPeak(cfg.committee, u, r)
    decreases |log|
  {
    hide GoodDag, Highest, Deliver, Group, IsPeak, HighestSupported, Sound;
    var cm := cfg.committee;
    GoodUnique(cm, u);
    if log != [] {
      var before, c := log[..|log| - 1], log[|log| - 1];
      var n, m := Run(cfg, before), Run(cfg, log);
      var peaks := PeaksOf(cm, before);
      PeaksDetermineLeaders(cfg, u, before);
      RunSound(cfg, u, before);
      SteadyRun(cfg, u, before);
      SteadyRun(cfg, u, log);
      HighestIs(cm, Delivered(cm, before), n.s.lastCommittedRound);
      HighestIs(cm, Delivered(cm, log), m.s.lastCommittedRound);
      DeliverAddsGroup(cfg, u, Delivered(cm, before), n, c);
      if n.s.lastCommittedRound < m.s.lastCommittedRound {
        LeadersOfConcat(cfg, u, 0, peaks, [m.s.lastCommittedRound]);
        LeadersOfOne(cfg, u, n.s.lastCommittedRound, m.s.lastCommittedRound);
        assert PeaksOf(cm, log) == peaks + [m.s.lastCommittedRound];
      } else {
        assert PeaksOf(cm, log) == peaks && m.leaders == n.leaders;
      }
    }
  }

  lemma LeadersOfOne(cfg: Config, u: set<Certificate>, low: Round, peak: Round)
    requires cfg.committee.Valid()
    ensures LeadersOf(cfg, u, low, [peak]) == Group(cfg, u, low, peak)
  {
    hide Group;
    assert [peak][1..] == [];
    assert Group(cfg, u, low, peak) + [] == Group(cfg, u, low, peak);
  }

  // ----- Reading the peaks off the leaders -----

  function EvenRounds(ls: seq<Certificate>): seq<Round> {
    if ls == [] then [] else (if ls[0].round % 2 == 0 then [ls[0].round] else []) + EvenRounds(ls[1..])
  }

  lemma {:induction false} EvenRoundsConcat(a: seq<Certificate>, b: seq<Certificate>)
    ensures EvenRounds(a + b) == EvenRounds(a) + EvenRounds(b)
    decreases |a|
  {
    if a == [] {
      assert a + b == b;
    } else {
      assert (a + b)[0] == a[0] && (a + b)[1..] == a[1..] + b;
      EvenRoundsConcat(a[1..], b);
      var head := if a[0].round % 2 == 0 then [a[0].round] else [];
      assert head + (EvenRounds(a[1..]) + EvenRounds(b)) == head + EvenRounds(a[1..]) + EvenRounds(b);
    }
  }

  lemma {:induction false} OddReversed(ls: seq<Certificate>)
    requires forall x :: x in ls ==> x.round % 2 == 1
    ensures EvenRounds(Reversed(ls)) == []
    decreases |ls|
  {
    if ls != [] {
      assert ls[0] in ls && forall x :: x in ls[1..] ==> x in ls;
      OddReversed(ls[1..]);
      EvenRoundsConcat(Reversed(ls[1..]), [ls[0]]);
      EvenOfOne(ls[0]);
    }
  }

  lemma WalkedOdd(cfg: Config, u: set<Certificate>, low: Round, peak: Round, leader: Certificate)
    requires cfg.committee.Valid() && cfg.walkStep % 2 == 1 && leader.round == peak && peak % 2 == 0
    ensures forall x :: x in Walk(cfg.committee, u, RoundsDown(peak - cfg.walkStep, low + 2), leader) ==> x.round % 2 == 1
  {
    hide Walk, RoundsDown;
    var rounds := RoundsDown(peak - cfg.walkStep, low + 2);
    RoundsDownExact(peak - cfg.walkStep, low + 2);
    assert forall r :: r in rounds ==> r % 2 == 1;
    WalkDescends(cfg.committee, u, rounds, leader);
  }

  lemma EvenOfOne(leader: Certificate)
    ensures EvenRounds([leader]) == if leader.round % 2 == 0 then [leader.round] else []
  {
    assert [leader][1..] == [];
  }

  /** With an odd step, only the newest leader of a commit is at an even round. */
  lemma GroupPeak(cfg: Config, u: set<Certificate>, low: Round, peak: Round)
    requires cfg.committee.Valid() && cfg.walkStep % 2 == 1 && IsPeak(cfg.committee, u, peak)
    ensures EvenRounds(Group(cfg, u, low, peak)) == [peak]
  {
    hide Walk, RoundsDown, Reversed, EvenRounds, LeaderAt;
    LeaderAtIs(cfg.committee, u, peak);
    var leader := LeaderAt(cfg.committee, u, peak).value;
    var walked := Walk(cfg.committee, u, RoundsDown(peak - cfg.walkStep, low + 2), leader);
    WalkedOdd(cfg, u, low, peak, leader);
    OddReversed(walked);
    ReversedHead(leader, walked);
    EvenRoundsConcat(Reversed(walked), [leader]);
    EvenOfOne(leader);
  }

  lemma ReversedHead(x: Certificate, xs: seq<Certificate>)
    ensures Reversed([x] + xs) == Reversed(xs) + [x]
  {
    assert ([x] + xs)[1..] == xs;
  }

  lemma {:induction false} PeaksReadBack(cfg: Config, u: set<Certificate>, low: Round, peaks: seq<Round>)
    requires cfg.committee.Valid() && cfg.walkStep % 2 == 1 && forall r :: r in peaks ==> IsPeak(cfg.committee, u, r)
    ensures EvenRounds(LeadersOf(cfg, u, low, peaks)) == peaks
    decreases |peaks|
  {
    hide Group, IsPeak;
    if peaks != [] {
      assert peaks[0] in peaks && forall r :: r in peaks[1..] ==> r in peaks;
      GroupPeak(cfg, u, low, peaks[0]);
      PeaksReadBack(cfg, u, peaks[0], peaks[1..]);
      EvenRoundsConcat(Group(cfg, u, low, peaks[0]), LeadersOf(cfg, u, peaks[0], peaks[1..]));
    }
  }

  /**
   * The exact condition under which the walk of the code makes two nodes commit the same leaders as far as they go: their
   * last committed rounds went through the same peaks.
   */
  lemma CodeWalkAgreesExactly(cfg: Config, u: set<Certificate>, log1: seq<Certificate>, log2: seq<Certificate>)
    requires !cfg.dynamic && cfg.walkStep % 2 == 1 && GoodDag(cfg.committee, u) && cfg.committee.Valid()
    requires Causal(cfg.committee, u, log1) && Causal(cfg.committee, u, log2)
    ensures Run(cfg, log1).leaders <= Run(cfg, log2).leaders <==>
            PeaksOf(cfg.committee, log1) <= PeaksOf(cfg.committee, log2)
  {
    hide GoodDag, Causal, Run, PeaksOf, LeadersOf, IsPeak;
    PeaksDetermineLeaders(cfg, u, log1);
    PeaksDetermineLeaders(cfg, u, log2);
    var a, b := PeaksOf(cfg.committee, log1), PeaksOf(cfg.committee, log2);
    var x, y := Run(cfg, log1).leaders, Run(cfg, log2).leaders;
    PeaksReadBack(cfg, u, 0, a);
    PeaksReadBack(cfg, u, 0, b);
    if a <= b {
      assert b == a + b[|a|..];
      LeadersOfConcat(cfg, u, 0, a, b[|a|..]);
    }
    if x <= y {
      assert y == x + y[|x|..];
      EvenRoundsConcat(x, y[|x|..]);
    }
  }

  /** With the walk of the code, nodes that went through the same peaks and lost nothing output prefixes of one order. */
  lemma CodeWalkOrder(cfg: Config, u: set<Certificate>, log1: seq<Certificate>, log2: seq<Certificate>)
    requires !cfg.dynamic && cfg.walkStep % 2 == 1 && GoodDag(cfg.committee, u) && cfg.committee.Valid()
    requires Causal(cfg.committee, u, log1) && Causal(cfg.committee, u, log2)
    requires IntactRun(cfg, u, log1) && PeaksOf(cfg.committee, log1) <= PeaksOf(cfg.committee, log2)
    ensures IntactRun(cfg, u, log2) ==> Run(cfg, log1).out <= Run(cfg, log2).out
    ensures PeaksOf(cfg.committee, log1) == PeaksOf(cfg.committee, log2) ==>
              (Run(cfg, log1).out == Run(cfg, log2).out <==> IntactRun(cfg, u, log2))
  {
    hide GoodDag, Causal, Run, PeaksOf, IntactRun;
    CodeWalkAgreesExactly(cfg, u, log1, log2);
    CodeWalkAgreesExactly(cfg, u, log2, log1);
    SameLeadersSameOutput(cfg, u, log1, log2);
  }

  /** Whatever a node received, in whatever order, its output is a function of its peaks exactly if it lost nothing. */
  lemma PeaksDetermineOutput(cfg: Config, u: set<Certificate>, log: seq<Certificate>)
    requires !cfg.dynamic && 1 <= cfg.walkStep && GoodDag(cfg.committee, u) && Causal(cfg.committee, u, log)
    ensures cfg.committee.Valid()
    ensures Run(cfg, log).out == Outputs(cfg, u, [], LeadersOf(cfg, u, 0, PeaksOf(cfg.committee, log)))
            <==> IntactRun(cfg, u, log)
  {
    hide GoodDag, Causal, Run, PeaksOf, LeadersOf, IntactRun, Outputs, Settled, Apart;
    PeaksDetermineLeaders(cfg, u, log);
    RunDeterminedExactly(cfg, u, log);
    if !IntactRun(cfg, u, log) {
      ApartDiffers(Run(cfg, log).out, Outputs(cfg, u, [], Run(cfg, log).leaders));
    }
  }
}
