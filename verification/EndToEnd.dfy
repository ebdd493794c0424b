/** Both layers in one system: what holds between any two honest authorities in every run of the message handlers. */
module EndToEnd {
  import opened Collections
  import opened Committees
  import opened Dags
  import opened Engine
  import opened Messages
  import opened Systems
  import opened Composition
  import Steady
  import Commits
  import Agreement
  import Anchors
  import Peaks
  import Verdicts

  /** What the commit engine of authority `k` has been given, in order. */
  ghost function LogOf(p: Setup, hash: Hash, actions: seq<Action>, k: Key): seq<Certificate>
    requires k in RunSystem(p, hash, actions)
  {
    Deliveries(RunSystem(p, hash, actions)[k].log.sent)
  }

  ghost function DagOf(p: Setup, hash: Hash, actions: seq<Action>): set<Certificate> {
    Dag(p.committee, RunSystem(p, hash, actions))
  }

  ghost predicate Reachable(p: Setup, hash: Hash, actions: seq<Action>, k: Key) {
    GoodRun(p, hash, actions) && k in RunSystem(p, hash, actions)
  }

  lemma Assumptions(p: Setup, hash: Hash, actions: seq<Action>, k: Key)
    requires Reachable(p, hash, actions, k)
    ensures GoodDag(p.committee, DagOf(p, hash, actions))
    ensures Causal(p.committee, DagOf(p, hash, actions), LogOf(p, hash, actions, k))
  {
    hide GoodDag, Causal, RunSystem, PossibleRun, NeverPanics, PlainGenesis, SentUnique, Setup.Valid, Injective;
    WhatConsensusAssumes(p, hash, actions);
  }

  /** A leader that one honest node sees supported is in the history of all that any honest node delivers two rounds up. */
  lemma SupportBindsEveryone(p: Setup, hash: Hash, actions: seq<Action>, a: Key, b: Key, leader: Certificate, c: Certificate)
    requires Reachable(p, hash, actions, a) && Reachable(p, hash, actions, b)
    requires leader in LogOf(p, hash, actions, a) && c in LogOf(p, hash, actions, b)
    requires Supported(p.committee, Delivered(p.committee, LogOf(p, hash, actions, a)), leader)
    requires leader.round + 2 <= c.round
    ensures Reaches(DagOf(p, hash, actions), c, leader)
  {
    hide Supported, RunSystem, GoodRun, GoodDag;
    var cm, u := p.committee, DagOf(p, hash, actions);
    Assumptions(p, hash, actions, a);
    Assumptions(p, hash, actions, b);
    Commits.CausalInside(cm, u, LogOf(p, hash, actions, a));
    Commits.CausalInside(cm, u, LogOf(p, hash, actions, b));
    GenesisIncluded(cm, u);
    AnchorPersistence(cm, u, Delivered(cm, LogOf(p, hash, actions, a)), leader, c);
  }

  /** Honest nodes whose engines were given the same certificates, in whatever order, have committed up to the same round. */
  lemma SameCertificatesSameRound(p: Setup, hash: Hash, actions: seq<Action>, a: Key, b: Key, cfg: Config)
    requires Reachable(p, hash, actions, a) && Reachable(p, hash, actions, b)
    requires !cfg.dynamic && 1 <= cfg.walkStep && cfg.committee == p.committee
    requires Members(LogOf(p, hash, actions, a)) == Members(LogOf(p, hash, actions, b))
    ensures Run(cfg, LogOf(p, hash, actions, a)).s.lastCommittedRound
            == Run(cfg, LogOf(p, hash, actions, b)).s.lastCommittedRound
  {
    hide GoodDag, Causal, RunSystem, GoodRun, Run, LogOf;
    Assumptions(p, hash, actions, a);
    Assumptions(p, hash, actions, b);
    Steady.ArrivalOrderIrrelevant(cfg, DagOf(p, hash, actions), LogOf(p, hash, actions, a), LogOf(p, hash, actions, b));
  }

  /** An honest engine outputs only what it was given, and nothing twice exactly if no commit runs into what was output. */
  lemma OutputsOnce(p: Setup, hash: Hash, actions: seq<Action>, a: Key, cfg: Config)
    requires Reachable(p, hash, actions, a) && cfg.committee == p.committee && 1 <= cfg.walkStep
    ensures var log := LogOf(p, hash, actions, a); var out := Run(cfg, log).out;
            && (NoRepeats(out) <==> Commits.NeverReachesStale(cfg, log))
            && (forall c :: c in out ==> c in Delivered(p.committee, log))
            && (Commits.NeverStale(cfg, log) ==> NoRepeats(out) && forall c :: c in out ==> c in log)
  {
    hide GoodDag, Causal, RunSystem, GoodRun, Run, LogOf, Commits.NeverReachesStale, Commits.NeverStale, Delivered;
    Assumptions(p, hash, actions, a);
    var u, log := DagOf(p, hash, actions), LogOf(p, hash, actions, a);
    Commits.NoDoubleCommitExactly(cfg, u, log);
    Commits.RunSound(cfg, u, log);
    OnlyDelivered(Delivered(p.committee, log), Run(cfg, log).out);
    if Commits.NeverStale(cfg, log) {
      Commits.NoDoubleCommit(cfg, u, log);
    }
  }

  lemma OnlyDelivered(delivered: set<Certificate>, out: seq<Certificate>)
    requires Members(out) <= delivered
    ensures forall c :: c in out ==> c in delivered
  {
    forall c | c in out
      ensures c in delivered
    {
      assert c in Members(out);
    }
  }

  /** With the walk over the anchors, the outputs of any two honest nodes that lost nothing are prefixes of one order. */
  lemma TotalOrder(p: Setup, hash: Hash, actions: seq<Action>, a: Key, b: Key, cfg: Config)
    requires Reachable(p, hash, actions, a) && Reachable(p, hash, actions, b)
    requires !cfg.dynamic && cfg.walkStep == 2 && cfg.committee == p.committee && p.committee.Valid()
    requires Agreement.IntactRun(cfg, DagOf(p, hash, actions), LogOf(p, hash, actions, a))
    requires Agreement.IntactRun(cfg, DagOf(p, hash, actions), LogOf(p, hash, actions, b))
    ensures var x := Run(cfg, LogOf(p, hash, actions, a)).out; var y := Run(cfg, LogOf(p, hash, actions, b)).out;
            x <= y || y <= x
  {
    hide GoodDag, Causal, RunSystem, GoodRun, Run, LogOf, DagOf, Agreement.IntactRun;
    Assumptions(p, hash, actions, a);
    Assumptions(p, hash, actions, b);
    Anchors.AnchorWalkTotalOrder(cfg, DagOf(p, hash, actions), LogOf(p, hash, actions, a), LogOf(p, hash, actions, b));
  }

  /**
   * With the walk of the code, the leaders one honest node committed are a prefix of those of another exactly if so are
   * the peaks of their deliveries; their outputs then follow one order if they lost nothing, and against a node that lost
   * nothing a node with the same peaks has the same output exactly if it lost nothing either.
   */
  lemma CodeOrder(p: Setup, hash: Hash, actions: seq<Action>, a: Key, b: Key, cfg: Config)
    requires Reachable(p, hash, actions, a) && Reachable(p, hash, actions, b)
    requires !cfg.dynamic && cfg.walkStep == 1 && cfg.committee == p.committee && p.committee.Valid()
    ensures var u := DagOf(p, hash, actions);
            var x := LogOf(p, hash, actions, a); var y := LogOf(p, hash, actions, b);
            var before := Peaks.PeaksOf(p.committee, x) <= Peaks.PeaksOf(p.committee, y);
            && (Run(cfg, x).leaders <= Run(cfg, y).leaders <==> before)
            && (before && Agreement.IntactRun(cfg, u, x) && Agreement.IntactRun(cfg, u, y) ==>
                  Run(cfg, x).out <= Run(cfg, y).out)
            && (Peaks.PeaksOf(p.committee, x) == Peaks.PeaksOf(p.committee, y) && Agreement.IntactRun(cfg, u, x) ==>
                  (Run(cfg, x).out == Run(cfg, y).out <==> Agreement.IntactRun(cfg, u, y)))
  {
    hide GoodDag, Causal, RunSystem, GoodRun, Run, LogOf, DagOf, Agreement.IntactRun, Peaks.PeaksOf;
    Assumptions(p, hash, actions, a);
    Assumptions(p, hash, actions, b);
    var u, x, y := DagOf(p, hash, actions), LogOf(p, hash, actions, a), LogOf(p, hash, actions, b);
    Peaks.CodeWalkAgreesExactly(cfg, u, x, y);
    if Peaks.PeaksOf(p.committee, x) <= Peaks.PeaksOf(p.committee, y) && Agreement.IntactRun(cfg, u, x) {
      Peaks.CodeWalkOrder(cfg, u, x, y);
    }
  }

  /**
   * In adversary mode, of two honest nodes the one that resolved fewer waves committed what the other did on them exactly if
   * their first visible quorums gave these waves the same verdicts; its output then comes first if neither lost anything.
   */
  lemma FallbackOrder(p: Setup, hash: Hash, actions: seq<Action>, a: Key, b: Key, cfg: Config)
    requires Reachable(p, hash, actions, a) && Reachable(p, hash, actions, b)
    requires cfg.dynamic && 1 <= cfg.walkStep && cfg.committee == p.committee && p.committee.Valid()
    requires |Run(cfg, LogOf(p, hash, actions, a)).waves| <= |Run(cfg, LogOf(p, hash, actions, b)).waves|
    ensures var u := DagOf(p, hash, actions);
            var x := LogOf(p, hash, actions, a); var y := LogOf(p, hash, actions, b);
            var waves := |Run(cfg, x).waves|; var same := Verdicts.SameVerdicts(p.committee, u, x, y, waves);
            && (Run(cfg, x).leaders == Verdicts.VerdictsUpTo(p.committee, u, y, waves) <==> same)
            && (same ==> Run(cfg, x).leaders <= Run(cfg, y).leaders)
            && (same && Agreement.IntactRun(cfg, u, x) && Agreement.IntactRun(cfg, u, y) ==> Run(cfg, x).out <= Run(cfg, y).out)
  {
    hide GoodDag, Causal, RunSystem, GoodRun, Run, LogOf, DagOf, Agreement.IntactRun, Verdicts.SameVerdicts, Verdicts.VerdictsUpTo;
    Assumptions(p, hash, actions, a);
    Assumptions(p, hash, actions, b);
    Verdicts.FallbackAgreement(cfg, DagOf(p, hash, actions), LogOf(p, hash, actions, a), LogOf(p, hash, actions, b));
  }
}
