/**
 * What a node commits in adversary mode, as a function of its deliveries alone: a wave gets its verdict when a quorum of its
 * last round is first visible, and the fallback is committed exactly if a quorum of those certificates descends from it.
 */
module Verdicts {
  import opened Collections
  import opened Committees
  import opened Dags
  import opened Engine
  import opened Retention
  import opened Commits
  import opened Steady
  import opened Agreement
  import opened Fallback

  /** The shortest prefix that delivers a quorum of round `r`, or the whole log. */
  ghost function Decisive(cm: Committee, log: seq<Certificate>, r: Round): seq<Certificate>
    decreases |log|
  {
    if log == [] || !QuorumAt(cm, Delivered(cm, log[..|log| - 1]), r) then log
    else Decisive(cm, log[..|log| - 1], r)
  }

  /** The fallback of the wave starting at `first`, if a quorum of its descendants was delivered by then. */
  ghost function Verdict(cm: Committee, u: set<Certificate>, delivered: set<Certificate>, first: Round): seq<Certificate>
    requires cm.Valid()
  {
    match FallbackAt(cm, u, first)
    case None => []
    case Some(l) => if CausallySupported(cm, u, delivered, l) then [l] else []
  }

  /** The verdict a log brings about on wave `k`. */
  ghost function VerdictOn(cm: Committee, u: set<Certificate>, log: seq<Certificate>, k: nat): seq<Certificate>
    requires cm.Valid()
  {
    Verdict(cm, u, Delivered(cm, Decisive(cm, log, 4 * k + 5)), 4 * k + 2)
  }

  /** The first visible quorum of wave `k` holds a quorum of descendants of its fallback. */
  ghost predicate Held(cm: Committee, u: set<Certificate>, log: seq<Certificate>, k: nat)
    requires cm.Valid()
  {
    VerdictOn(cm, u, log, k) != []
  }

  ghost function VerdictsUpTo(cm: Committee, u: set<Certificate>, log: seq<Certificate>, waves: nat): seq<Certificate>
    requires cm.Valid()
  {
    if waves == 0 then [] else VerdictsUpTo(cm, u, log, waves - 1) + VerdictOn(cm, u, log, waves - 1)
  }

  // ----- One delivery -----

  lemma FallbackIn(cm: Committee, u: set<Certificate>, s: set<Certificate>, first: Round, l: Certificate)
    requires cm.Valid() && SlotUnique(u) && s <= u && l in s && l.round == first && FallbackKey(cm, first) == Some(l.author)
    ensures FallbackAt(cm, s, first) == Some(l) && FallbackAt(cm, u, first) == Some(l)
  {
    hide FallbackKey;
    LookupUnique(u, l);
    LookupUnique(s, l);
  }

  lemma FallbackIs(cm: Committee, u: set<Certificate>, first: Round)
    requires cm.Valid()
    ensures match FallbackAt(cm, u, first)
            case None => true
            case Some(l) => l in u && l.round == first && FallbackKey(cm, first) == Some(l.author)
  {
    hide FallbackKey;
  }

  /** What has delivered descendants was delivered. */
  lemma SupportedIsDelivered(cm: Committee, u: set<Certificate>, delivered: set<Certificate>, l: Certificate)
    requires History(cm, u, delivered) && CausallySupported(cm, u, delivered, l)
    ensures l in delivered
  {
    if CausalSupport(u, delivered, l) == {} {
      assert Authors(CausalSupport(u, delivered, l)) == {};
      cm.WeightEmpty({});
    }
    var x :| x in CausalSupport(u, delivered, l);
    ReachesInside(u, delivered, x, l);
  }

  /** The engine's decision is the verdict: it commits a supported fallback, and skips only one that is not. */
  lemma DecidesVerdict(cfg: Config, u: set<Certificate>, delivered: set<Certificate>, committed: set<Certificate>,
                       s: State, round: Round)
    requires cfg.dynamic && Inv(cfg.committee, cfg.gcDepth, u, delivered, committed, s) && SlotUnique(u)
    requires 3 <= round
    ensures match Decide(cfg, s, round)
            case Wait => true
            case Skip(r) => r == round - 3 && Verdict(cfg.committee, u, delivered, r) == []
            case Commit(l) => l.round == round - 3 && Verdict(cfg.committee, u, delivered, l.round) == [l]
  {
    hide Inv, FallbackKey, CausallySupported, Support, CausalSupport;
    var cm, first := cfg.committee, round - 3;
    InvBasics(cm, cfg.gcDepth, u, delivered, committed, s);
    InvHistory(cm, cfg.gcDepth, u, delivered, committed, s);
    FallbackIs(cm, u, first);
    if Decide(cfg, s, round).Commit? {
      var l := Decide(cfg, s, round).leader;
      CommittedFallback(cfg, u, delivered, committed, s, round);
      FallbackIn(cm, u, delivered, first, l);
    }
    if Decide(cfg, s, round).Skip? && Verdict(cm, u, delivered, first) != [] {
      var l := FallbackAt(cm, u, first).value;
      SupportedIsDelivered(cm, u, delivered, l);
      RowIsDelivered(cm, cfg.gcDepth, u, delivered, committed, s, first);
      assert l in AtRound(delivered, first);
      FallbackIn(cm, u, s.dag, first, l);
      SupportIsCausal(cfg, u, delivered, committed, s, l);
      SupportWeighs(cm, u, delivered, l);
    }
  }

  lemma SupportWeighs(cm: Committee, u: set<Certificate>, delivered: set<Certificate>, l: Certificate)
    requires CausallySupported(cm, u, delivered, l)
    ensures cm.Weight(Authors(CausalSupport(u, delivered, l))) >= cm.QuorumThreshold()
  {
  }

  lemma DeliverVerdict(cfg: Config, u: set<Certificate>, delivered: set<Certificate>, n: Node, c: Certificate)
    requires cfg.dynamic && 1 <= cfg.walkStep && Sound(cfg, u, delivered, n) && SlotUnique(u) && cfg.committee.Valid()
    requires c in u && forall y :: y in u && Edge(c, y) ==> y in delivered
    requires WavesInOrder(cfg.committee, delivered, n)
    ensures var m := Deliver(cfg, n, c); var k := |n.waves|;
            if m.waves == n.waves then m.leaders == n.leaders
            else && |m.waves| == k + 1 && !QuorumAt(cfg.committee, delivered, 4 * k + 5)
                 && m.leaders == n.leaders + Verdict(cfg.committee, u, delivered + {c}, 4 * k + 2)
  {
    hide Inv, Decide, CommitLeaders, QuorumAt, Verdict, LeadersToCommit;
    var cm := cfg.committee;
    var committed := Genesis(cm) + Members(n.out);
    var s := Insert(n.s, c);
    var after := delivered + {c};
    InvBasics(cm, cfg.gcDepth, u, delivered, committed, n.s);
    InvInsert(cm, cfg.gcDepth, u, delivered, committed, n.s, c);
    WaveStep(cfg, u, delivered, n, c);
    if c.round < 3 {
      WaitsOtherwise(cfg, s, c.round);
    } else {
      DecidesVerdict(cfg, u, after, committed, s, c.round);
      DynamicCommitRound(cfg, u, after, committed, n, s, c);
    }
    var m := Deliver(cfg, n, c);
    WaveAdded(cm, after, n, m);
    match Decide(cfg, s, c.round)
    case Wait =>
    case Skip(r) =>
      assert m.waves[|n.waves|] == r && n.leaders + [] == n.leaders;
    case Commit(l) =>
      assert m.waves[|n.waves|] == l.round;
  }

  /** A wave that is added is the next one. */
  lemma WaveAdded(cm: Committee, after: set<Certificate>, n: Node, m: Node)
    requires WavesInOrder(cm, after, m) && n.waves <= m.waves && |m.waves| <= |n.waves| + 1
    ensures m.waves == n.waves || (|m.waves| == |n.waves| + 1 && m.waves[|n.waves|] == 4 * |n.waves| + 2)
  {
  }

  // ----- Runs -----

  lemma DecisiveStays(cm: Committee, u: set<Certificate>, log: seq<Certificate>, waves: nat)
    requires cm.Valid() && log != []
    requires forall k: nat :: k < waves ==> QuorumAt(cm, Delivered(cm, log[..|log| - 1]), 4 * k + 5)
    ensures VerdictsUpTo(cm, u, log, waves) == VerdictsUpTo(cm, u, log[..|log| - 1], waves)
  {
    hide QuorumAt, Verdict;
    if waves != 0 {
      DecisiveStays(cm, u, log, waves - 1);
    }
  }

  lemma DecidedNow(cm: Committee, u: set<Certificate>, log: seq<Certificate>, k: nat)
    requires cm.Valid() && log != [] && !QuorumAt(cm, Delivered(cm, log[..|log| - 1]), 4 * k + 5)
    ensures VerdictOn(cm, u, log, k) == Verdict(cm, u, Delivered(cm, log), 4 * k + 2)
  {
    hide QuorumAt, Verdict;
  }

  lemma {:induction false} LeadersFollow(cfg: Config, u: set<Certificate>, log: seq<Certificate>)
    requires cfg.dynamic && 1 <= cfg.walkStep && GoodDag(cfg.committee, u) && Causal(cfg.committee, u, log)
    ensures cfg.committee.Valid()
    ensures Run(cfg, log).leaders == VerdictsUpTo(cfg.committee, u, log, |Run(cfg, log).waves|)
    decreases |log|
  {
    hide GoodDag, QuorumAt, Verdict, Deliver, Sound, FallbacksSound, VerdictOn, Delivered;
    var cm := cfg.committee;
    GoodUnique(cm, u);
    if log != [] {
      var before, c := log[..|log| - 1], log[|log| - 1];
      var n, m := Run(cfg, before), Run(cfg, log);
      LeadersFollow(cfg, u, before);
      RunSound(cfg, u, before);
      FallbackRun(cfg, u, before);
      DeliveredStep(cm, log);
      DeliverVerdict(cfg, u, Delivered(cm, before), n, c);
      DecisiveStays(cm, u, log, |n.waves|);
      if m.waves != n.waves {
        DecidedNow(cm, u, log, |n.waves|);
        assert VerdictsUpTo(cm, u, log, |m.waves|) == VerdictsUpTo(cm, u, log, |n.waves|) + VerdictOn(cm, u, log, |n.waves|);
      }
    }
  }

  /**
   * In every run in adversary mode waves are resolved in order, and the leaders committed are, wave by wave, the fallbacks
   * whose descendants held a quorum when a quorum of the wave's last round was first visible: exactly those, and nothing
   * else of the deliveries matters.
   */
  lemma LeadersAreVerdicts(cfg: Config, u: set<Certificate>, log: seq<Certificate>)
    requires cfg.dynamic && 1 <= cfg.walkStep && GoodDag(cfg.committee, u) && Causal(cfg.committee, u, log)
    ensures cfg.committee.Valid() && WavesInOrder(cfg.committee, Delivered(cfg.committee, log), Run(cfg, log))
    ensures Run(cfg, log).leaders == VerdictsUpTo(cfg.committee, u, log, |Run(cfg, log).waves|)
  {
    hide GoodDag, Causal, Run, WavesInOrder, VerdictsUpTo, FallbacksSound;
    FallbackRun(cfg, u, log);
    LeadersFollow(cfg, u, log);
  }

  // ----- Agreement -----

  lemma {:induction false} VerdictsBelow(cm: Committee, u: set<Certificate>, log: seq<Certificate>, waves: nat)
    requires cm.Valid()
    ensures forall l :: l in VerdictsUpTo(cm, u, log, waves) ==> l.round < 4 * waves + 2
    decreases waves
  {
    hide VerdictOn;
    if waves != 0 {
      VerdictsBelow(cm, u, log, waves - 1);
      VerdictRounds(cm, u, log);
    }
  }

  lemma {:induction false} VerdictIn(cm: Committee, u: set<Certificate>, log: seq<Certificate>, waves: nat, k: nat, l: Certificate)
    requires cm.Valid() && k < waves && l.round == 4 * k + 2
    ensures l in VerdictsUpTo(cm, u, log, waves) <==> l in VerdictOn(cm, u, log, k)
    decreases waves
  {
    hide VerdictOn;
    VerdictRounds(cm, u, log);
    if k < waves - 1 {
      VerdictIn(cm, u, log, waves - 1, k, l);
    } else {
      VerdictsBelow(cm, u, log, k);
    }
  }

  lemma VerdictRounds(cm: Committee, u: set<Certificate>, log: seq<Certificate>)
    requires cm.Valid()
    ensures forall k: nat, l :: l in VerdictOn(cm, u, log, k) ==> l.round == 4 * k + 2
  {
    hide Decisive, CausallySupported;
    forall k: nat, l | l in VerdictOn(cm, u, log, k)
      ensures l.round == 4 * k + 2
    {
      FallbackIs(cm, u, 4 * k + 2);
    }
  }

  /** A verdict can only be the fallback of the wave or nothing, whatever the log. */
  lemma VerdictsDiffer(cm: Committee, u: set<Certificate>, a: seq<Certificate>, b: seq<Certificate>, k: nat)
    requires cm.Valid()
    ensures VerdictOn(cm, u, a, k) == VerdictOn(cm, u, b, k) <==> (Held(cm, u, a, k) <==> Held(cm, u, b, k))
  {
    hide Decisive, CausallySupported;
  }

  ghost predicate SameVerdicts(cm: Committee, u: set<Certificate>, a: seq<Certificate>, b: seq<Certificate>, waves: nat)
    requires cm.Valid()
  {
    forall k: nat :: k < waves ==> (Held(cm, u, a, k) <==> Held(cm, u, b, k))
  }

  lemma {:induction false} SameVerdictsUpTo(cm: Committee, u: set<Certificate>, a: seq<Certificate>, b: seq<Certificate>,
                                            waves: nat)
    requires cm.Valid()
    ensures VerdictsUpTo(cm, u, a, waves) == VerdictsUpTo(cm, u, b, waves) <==> SameVerdicts(cm, u, a, b, waves)
    decreases waves
  {
    hide Held, VerdictOn;
    if waves != 0 {
      var k := waves - 1;
      SameVerdictsUpTo(cm, u, a, b, k);
      VerdictsDiffer(cm, u, a, b, k);
      VerdictsBelow(cm, u, a, waves);
      VerdictsBelow(cm, u, b, waves);
      VerdictsBelow(cm, u, a, k);
      VerdictsBelow(cm, u, b, k);
      var x, y := VerdictsUpTo(cm, u, a, waves), VerdictsUpTo(cm, u, b, waves);
      if x == y {
        SameLast(cm, u, a, b, k);
        assert x[..|VerdictsUpTo(cm, u, a, k)|] == VerdictsUpTo(cm, u, a, k);
        assert y[..|VerdictsUpTo(cm, u, b, k)|] == VerdictsUpTo(cm, u, b, k);
      }
    }
  }

  lemma SameLast(cm: Committee, u: set<Certificate>, a: seq<Certificate>, b: seq<Certificate>, k: nat)
    requires cm.Valid() && VerdictsUpTo(cm, u, a, k + 1) == VerdictsUpTo(cm, u, b, k + 1)
    ensures VerdictOn(cm, u, a, k) == VerdictOn(cm, u, b, k)
  {
    hide VerdictOn, VerdictsUpTo;
    VerdictRounds(cm, u, a);
    VerdictRounds(cm, u, b);
    VerdictsDiffer(cm, u, a, b, k);
    if Held(cm, u, a, k) {
      var l := VerdictOn(cm, u, a, k)[0];
      assert l in VerdictOn(cm, u, a, k);
      VerdictIn(cm, u, a, k + 1, k, l);
      VerdictIn(cm, u, b, k + 1, k, l);
    }
    if Held(cm, u, b, k) {
      var l := VerdictOn(cm, u, b, k)[0];
      assert l in VerdictOn(cm, u, b, k);
      VerdictIn(cm, u, a, k + 1, k, l);
      VerdictIn(cm, u, b, k + 1, k, l);
    }
  }

  /**
   * Two nodes that have both resolved a wave give it the same verdict exactly if their first visible quorums both, or
   * neither, hold a quorum of descendants of the fallback.
   */
  lemma SameVerdictExactly(cfg: Config, u: set<Certificate>, log1: seq<Certificate>, log2: seq<Certificate>, k: nat)
    requires cfg.dynamic && 1 <= cfg.walkStep && GoodDag(cfg.committee, u) && cfg.committee.Valid()
    requires Causal(cfg.committee, u, log1) && QuorumAt(cfg.committee, Delivered(cfg.committee, log1), 4 * k + 5)
    requires Causal(cfg.committee, u, log2) && QuorumAt(cfg.committee, Delivered(cfg.committee, log2), 4 * k + 5)
    ensures (forall l: Certificate :: l.round == 4 * k + 2 ==> (l in Run(cfg, log1).leaders <==> l in Run(cfg, log2).leaders))
            <==> (Held(cfg.committee, u, log1, k) <==> Held(cfg.committee, u, log2, k))
  {
    hide GoodDag, Causal, Run, QuorumAt, FallbacksSound, VerdictOn, VerdictsUpTo;
    var cm := cfg.committee;
    var x, y := Run(cfg, log1).leaders, Run(cfg, log2).leaders;
    FallbackRun(cfg, u, log1);
    FallbackRun(cfg, u, log2);
    LeadersAreVerdicts(cfg, u, log1);
    LeadersAreVerdicts(cfg, u, log2);
    VerdictRounds(cm, u, log1);
    VerdictRounds(cm, u, log2);
    VerdictsDiffer(cm, u, log1, log2, k);
    forall l: Certificate | l.round == 4 * k + 2
      ensures l in x <==> l in VerdictOn(cm, u, log1, k)
      ensures l in y <==> l in VerdictOn(cm, u, log2, k)
    {
      VerdictIn(cm, u, log1, |Run(cfg, log1).waves|, k, l);
      VerdictIn(cm, u, log2, |Run(cfg, log2).waves|, k, l);
    }
    if Held(cm, u, log1, k) {
      assert VerdictOn(cm, u, log1, k)[0] in VerdictOn(cm, u, log1, k);
    }
    if Held(cm, u, log2, k) {
      assert VerdictOn(cm, u, log2, k)[0] in VerdictOn(cm, u, log2, k);
    }
  }

  lemma {:induction false} VerdictsPrefix(cm: Committee, u: set<Certificate>, log: seq<Certificate>, low: nat, high: nat)
    requires cm.Valid() && low <= high
    ensures VerdictsUpTo(cm, u, log, low) <= VerdictsUpTo(cm, u, log, high)
    decreases high
  {
    hide VerdictOn;
    if low < high {
      VerdictsPrefix(cm, u, log, low, high - 1);
    }
  }

  /**
   * Agreement in adversary mode: a node commits what another commits on the waves it has resolved exactly if they give
   * these waves the same verdicts. Then its leaders are a prefix of the other's, and so are the outputs if nothing was lost.
   */
  lemma FallbackAgreement(cfg: Config, u: set<Certificate>, log1: seq<Certificate>, log2: seq<Certificate>)
    requires cfg.dynamic && 1 <= cfg.walkStep && GoodDag(cfg.committee, u) && cfg.committee.Valid()
    requires Causal(cfg.committee, u, log1) && Causal(cfg.committee, u, log2)
    requires |Run(cfg, log1).waves| <= |Run(cfg, log2).waves|
    ensures var waves := |Run(cfg, log1).waves|; var same := SameVerdicts(cfg.committee, u, log1, log2, waves);
            var x := Run(cfg, log1); var y := Run(cfg, log2);
            && (x.leaders == VerdictsUpTo(cfg.committee, u, log2, waves) <==> same)
            && (waves == |y.waves| ==> (x.leaders == y.leaders <==> same))
            && (same ==> x.leaders <= y.leaders)
            && (same && IntactRun(cfg, u, log1) && IntactRun(cfg, u, log2) ==> x.out <= y.out)
  {
    hide GoodDag, Causal, Run, IntactRun, VerdictsUpTo, SameVerdicts;
    var cm := cfg.committee;
    var waves := |Run(cfg, log1).waves|;
    LeadersAreVerdicts(cfg, u, log1);
    LeadersAreVerdicts(cfg, u, log2);
    SameVerdictsUpTo(cm, u, log1, log2, waves);
    VerdictsPrefix(cm, u, log2, waves, |Run(cfg, log2).waves|);
    if SameVerdicts(cm, u, log1, log2, waves) && IntactRun(cfg, u, log1) {
      SameLeadersSameOutput(cfg, u, log1, log2);
    }
  }
}
