/** Adversary mode: one fallback per wave of four rounds, resolved once a quorum of the wave's support round is visible. */
module Fallback {
  import opened Collections
  import opened Committees
  import opened Dags
  import opened Engine
  import opened Retention
  import opened Commits
  import opened Steady

  ghost predicate QuorumAt(cm: Committee, s: set<Certificate>, r: Round) {
    cm.Weight(Authors(AtRound(s, r))) >= cm.QuorumThreshold()
  }

  lemma QuorumGrows(cm: Committee, s: set<Certificate>, t: set<Certificate>, r: Round)
    requires s <= t && QuorumAt(cm, s, r)
    ensures QuorumAt(cm, t, r)
  {
    cm.WeightMonotone(Authors(AtRound(s, r)), Authors(AtRound(t, r)));
  }

  /** Below a certificate whose parents were delivered lies a delivered quorum. */
  lemma QuorumBelow(cm: Committee, u: set<Certificate>, delivered: set<Certificate>, c: Certificate)
    requires GoodDag(cm, u) && c in u && 0 < c.round
    requires forall y :: y in u && Edge(c, y) ==> y in delivered
    ensures QuorumAt(cm, delivered, c.round - 1)
  {
    assert QuorumParents(cm, u, c);
    var origins := set d | d in c.parents :: d.origin;
    forall k | k in origins
      ensures k in Authors(AtRound(delivered, c.round - 1))
    {
      var d :| d in c.parents && d.origin == k;
      var y :| y in u && y.Digest() == d;
      assert Edge(c, y);
      assert y in AtRound(delivered, c.round - 1);
    }
    cm.WeightMonotone(origins, Authors(AtRound(delivered, c.round - 1)));
  }

  lemma {:induction false} QuorumsBelow(cm: Committee, u: set<Certificate>, delivered: set<Certificate>, r: Round, low: Round)
    requires History(cm, u, delivered) && QuorumAt(cm, delivered, r) && low <= r
    ensures QuorumAt(cm, delivered, low)
    decreases r
  {
    if low < r {
      if AtRound(delivered, r) == {} {
        assert Authors(AtRound(delivered, r)) == {};
        cm.WeightEmpty({});
      }
      var c :| c in AtRound(delivered, r);
      QuorumBelow(cm, u, delivered, c);
      QuorumsBelow(cm, u, delivered, r - 1, low);
    }
  }

  /**
   * Waves are resolved in order, each once, without a gap; wave k (rounds 4k+2 to 4k+5) is resolved exactly when a
   * quorum of its last round has been delivered. `resolved` is thus a function of the delivered set.
   */
  ghost predicate WavesInOrder(cm: Committee, delivered: set<Certificate>, n: Node) {
    && (forall i :: 0 <= i < |n.waves| ==> n.waves[i] == 4 * i + 2)
    && n.s.resolved == (set w | w in n.waves)
    && (forall k: nat :: k < |n.waves| <==> QuorumAt(cm, delivered, 4 * k + 5))
    && (n.s.lastCommittedRound == 0 || n.s.lastCommittedRound in n.waves)
  }

  /** The certificates of a wave's last round that descend from its fallback. */
  ghost function CausalSupport(u: set<Certificate>, delivered: set<Certificate>, leader: Certificate): set<Certificate> {
    set x | x in delivered && x.round == leader.round + 3 && Reaches(u, x, leader)
  }

  ghost predicate CausallySupported(cm: Committee, u: set<Certificate>, delivered: set<Certificate>, leader: Certificate) {
    cm.Weight(Authors(CausalSupport(u, delivered, leader))) >= cm.QuorumThreshold()
  }

  ghost predicate FallbacksSound(cm: Committee, u: set<Certificate>, delivered: set<Certificate>, n: Node)
    requires cm.Valid()
  {
    && (forall l :: l in n.leaders ==>
          && l in delivered && l.round in n.waves
          && FallbackKey(cm, l.round) == Some(l.author)
          && CausallySupported(cm, u, delivered, l))
    && (forall l :: l in n.leaders ==> l.round <= n.s.lastCommittedRound)
    && (forall i, j :: 0 <= i < j < |n.leaders| ==> n.leaders[i].round < n.leaders[j].round)
  }

  lemma WaveRound(n: Node, cm: Committee, delivered: set<Certificate>, k: nat)
    requires WavesInOrder(cm, delivered, n)
    ensures 4 * k + 2 in n.waves <==> k < |n.waves|
    ensures k >= |n.waves| ==> n.s.lastCommittedRound < 4 * k + 2
  {
    if k < |n.waves| {
      assert n.waves[k] == 4 * k + 2;
    } else {
      assert forall i :: 0 <= i < |n.waves| ==> n.waves[i] < 4 * k + 2;
    }
    if n.s.lastCommittedRound in n.waves {
      var i :| 0 <= i < |n.waves| && n.waves[i] == n.s.lastCommittedRound;
    }
  }

  /** The next wave to resolve is the only one a delivery can complete. */
  lemma CompletesNextWave(cm: Committee, u: set<Certificate>, delivered: set<Certificate>, n: Node, c: Certificate, k: nat)
    requires History(cm, u, delivered) && WavesInOrder(cm, delivered, n)
    requires c in u && forall y :: y in u && Edge(c, y) ==> y in delivered
    requires c.round == 4 * k + 5 && |n.waves| <= k
    ensures k == |n.waves|
  {
    if 0 < k {
      QuorumBelow(cm, u, delivered, c);
      QuorumsBelow(cm, u, delivered, c.round - 1, c.round - 4);
      assert QuorumAt(cm, delivered, 4 * (k - 1) + 5);
    }
  }

  lemma OtherRoundsUnchanged(cm: Committee, delivered: set<Certificate>, c: Certificate, r: Round)
    requires r != c.round
    ensures QuorumAt(cm, delivered + {c}, r) <==> QuorumAt(cm, delivered, r)
  {
    assert AtRound(delivered + {c}, r) == AtRound(delivered, r);
  }

  lemma RowIsDelivered(cm: Committee, gcDepth: Round, u: set<Certificate>, delivered: set<Certificate>,
                       committed: set<Certificate>, s: State, r: Round)
    requires Inv(cm, gcDepth, u, delivered, committed, s) && s.lastCommittedRound <= r
    ensures AtRound(s.dag, r) == AtRound(delivered, r)
  {
    RecentAllRetained(cm, gcDepth, u, delivered, committed, s, r);
  }

  /** The verdict on the next wave: nothing before its quorum is visible, a skip or a commit right after. */
  lemma VerdictWhenQuorum(cfg: Config, u: set<Certificate>, delivered: set<Certificate>, committed: set<Certificate>,
                          s: State, k: nat)
    requires cfg.dynamic && Inv(cfg.committee, cfg.gcDepth, u, delivered, committed, s)
    requires s.lastCommittedRound < 4 * k + 2 && 4 * k + 2 !in s.resolved
    ensures Decide(cfg, s, 4 * k + 5).Wait? <==> !QuorumAt(cfg.committee, delivered, 4 * k + 5)
    ensures Decide(cfg, s, 4 * k + 5).Skip? ==> Decide(cfg, s, 4 * k + 5).round == 4 * k + 2
  {
    hide Inv;
    InvBasics(cfg.committee, cfg.gcDepth, u, delivered, committed, s);
    RowIsDelivered(cfg.committee, cfg.gcDepth, u, delivered, committed, s, 4 * k + 5);
  }

  lemma WaitsOtherwise(cfg: Config, s: State, round: Round)
    requires cfg.dynamic && cfg.committee.Valid()
    requires round < 5 || round % 4 != 1 || round - 3 in s.resolved || round - 3 <= s.lastCommittedRound
    ensures Decide(cfg, s, round).Wait?
  {
  }

  lemma SupportIsCausal(cfg: Config, u: set<Certificate>, delivered: set<Certificate>, committed: set<Certificate>,
                        s: State, l: Certificate)
    requires cfg.dynamic && Inv(cfg.committee, cfg.gcDepth, u, delivered, committed, s)
    requires l in delivered && s.lastCommittedRound < l.round
    ensures Support(cfg, s.dag, l.round + 3, l) == CausalSupport(u, delivered, l)
  {
    hide Inv, Linked;
    var cm, round := cfg.committee, l.round + 3;
    RowIsDelivered(cm, cfg.gcDepth, u, delivered, committed, s, round);
    forall x | x in delivered
      ensures Linked(s.dag, x, l) <==> Reaches(u, x, l)
    {
      LinkedIsReachable(cm, cfg.gcDepth, u, delivered, committed, s, x, l);
    }
    forall x
      ensures x in s.dag && x.round == round <==> x in delivered && x.round == round
    {
      assert x in AtRound(s.dag, round) <==> x in AtRound(delivered, round);
    }
  }

  lemma CommittedFallback(cfg: Config, u: set<Certificate>, delivered: set<Certificate>, committed: set<Certificate>,
                          s: State, round: Round)
    requires cfg.dynamic && Inv(cfg.committee, cfg.gcDepth, u, delivered, committed, s)
    requires Decide(cfg, s, round).Commit?
    ensures var l := Decide(cfg, s, round).leader;
            && l in delivered && round == l.round + 3 && s.lastCommittedRound < l.round
            && FallbackKey(cfg.committee, l.round) == Some(l.author)
            && CausallySupported(cfg.committee, u, delivered, l)
  {
    hide Inv, FallbackKey, Linked;
    var cm := cfg.committee;
    InvBasics(cm, cfg.gcDepth, u, delivered, committed, s);
    DecideCommits(cfg, s, round);
    var l := Decide(cfg, s, round).leader;
    SupportIsCausal(cfg, u, delivered, committed, s, l);
  }

  lemma SupportPersistsInDelivered(cm: Committee, u: set<Certificate>, s: set<Certificate>, t: set<Certificate>, l: Certificate)
    requires s <= t && CausallySupported(cm, u, s, l)
    ensures CausallySupported(cm, u, t, l)
  {
    cm.WeightMonotone(Authors(CausalSupport(u, s, l)), Authors(CausalSupport(u, t, l)));
  }

  lemma WaveStep(cfg: Config, u: set<Certificate>, delivered: set<Certificate>, n: Node, c: Certificate)
    requires cfg.dynamic && 1 <= cfg.walkStep && Sound(cfg, u, delivered, n)
    requires c in u && forall y :: y in u && Edge(c, y) ==> y in delivered
    requires WavesInOrder(cfg.committee, delivered, n)
    ensures WavesInOrder(cfg.committee, delivered + {c}, Deliver(cfg, n, c))
  {
    hide Inv, Decide, CommitLeaders, QuorumAt, History;
    var cm := cfg.committee;
    var committed := Genesis(cm) + Members(n.out);
    var s := Insert(n.s, c);
    var after := delivered + {c};
    InvBasics(cm, cfg.gcDepth, u, delivered, committed, n.s);
    InvHistory(cm, cfg.gcDepth, u, delivered, committed, n.s);
    InvInsert(cm, cfg.gcDepth, u, delivered, committed, n.s, c);
    forall k: nat | 4 * k + 5 != c.round
      ensures QuorumAt(cm, after, 4 * k + 5) <==> k < |n.waves|
    {
      OtherRoundsUnchanged(cm, delivered, c, 4 * k + 5);
    }
    if 5 <= c.round && c.round % 4 == 1 {
      var k := (c.round - 5) / 4;
      assert c.round == 4 * k + 5;
      WaveRound(n, cm, delivered, k);
      if k < |n.waves| {
        QuorumGrows(cm, delivered, after, c.round);
        WaitsOtherwise(cfg, s, c.round);
      } else {
        CompletesNextWave(cm, u, delivered, n, c, k);
        VerdictWhenQuorum(cfg, u, after, committed, s, k);
        DynamicCommitRound(cfg, u, after, committed, n, s, c);
      }
    } else {
      WaitsOtherwise(cfg, s, c.round);
    }
  }

  lemma DynamicCommitRound(cfg: Config, u: set<Certificate>, after: set<Certificate>, committed: set<Certificate>,
                           n: Node, s: State, c: Certificate)
    requires cfg.dynamic && 1 <= cfg.walkStep && committed == Genesis(cfg.committee) + Members(n.out)
    requires Inv(cfg.committee, cfg.gcDepth, u, after, committed, s) && s == Insert(n.s, c)
    ensures Decide(cfg, s, c.round).Commit? ==>
              var m := Deliver(cfg, n, c);
              var l := Decide(cfg, s, c.round).leader;
              && m.s.lastCommittedRound == l.round == c.round - 3
              && m.s.resolved == s.resolved + {l.round} && m.waves == n.waves + [l.round]
              && m.leaders == n.leaders + [l]
  {
    hide Inv, Decide, CommitLeaders;
    InvBasics(cfg.committee, cfg.gcDepth, u, after, committed, s);
    if Decide(cfg, s, c.round).Commit? {
      var l := Decide(cfg, s, c.round).leader;
      DecideCommits(cfg, s, c.round);
      ResolveKeepsInv(cfg, u, after, committed, s, l.round);
      CommitSound(cfg, u, after, Resolve(cfg, s, l.round), n.out, l);
      assert Reversed([l]) == [l];
    }
  }

  lemma FallbackStep(cfg: Config, u: set<Certificate>, delivered: set<Certificate>, n: Node, c: Certificate)
    requires cfg.dynamic && 1 <= cfg.walkStep && Sound(cfg, u, delivered, n)
    requires c in u && forall y :: y in u && Edge(c, y) ==> y in delivered
    requires cfg.committee.Valid() && FallbacksSound(cfg.committee, u, delivered, n)
    ensures FallbacksSound(cfg.committee, u, delivered + {c}, Deliver(cfg, n, c))
  {
    hide Inv, Decide, CommitLeaders, CausallySupported, FallbackKey, Tight, Reversed, LeadersToCommit;
    var cm := cfg.committee;
    var committed := Genesis(cm) + Members(n.out);
    var s := Insert(n.s, c);
    var after := delivered + {c};
    InvBasics(cm, cfg.gcDepth, u, delivered, committed, n.s);
    InvInsert(cm, cfg.gcDepth, u, delivered, committed, n.s, c);
    forall l | l in n.leaders
      ensures CausallySupported(cm, u, after, l)
    {
      SupportPersistsInDelivered(cm, u, delivered, after, l);
    }
    if Decide(cfg, s, c.round).Commit? {
      var l := Decide(cfg, s, c.round).leader;
      CommittedFallback(cfg, u, after, committed, s, c.round);
      DynamicCommitRound(cfg, u, after, committed, n, s, c);
      var m := Deliver(cfg, n, c);
      assert m.waves[|n.waves|] == l.round;
      assert forall r :: r in n.waves ==> r in m.waves;
      assert forall i :: 0 <= i < |n.leaders| ==> n.leaders[i] in n.leaders;
    }
  }

  /** Every run in adversary mode. */
  lemma {:induction false} FallbackRun(cfg: Config, u: set<Certificate>, log: seq<Certificate>)
    requires cfg.dynamic && 1 <= cfg.walkStep && GoodDag(cfg.committee, u) && Causal(cfg.committee, u, log)
    ensures WavesInOrder(cfg.committee, Delivered(cfg.committee, log), Run(cfg, log))
    ensures FallbacksSound(cfg.committee, u, Delivered(cfg.committee, log), Run(cfg, log))
    decreases |log|
  {
    var cm := cfg.committee;
    if log == [] {
      InvInitial(cm, cfg.gcDepth, u);
      forall k: nat
        ensures !QuorumAt(cm, Delivered(cm, log), 4 * k + 5)
      {
        assert AtRound(Delivered(cm, log), 4 * k + 5) == {};
        assert Authors({}) == {};
        cm.WeightEmpty({});
      }
    } else {
      var before := log[..|log| - 1];
      FallbackRun(cfg, u, before);
      RunSound(cfg, u, before);
      DeliveredStep(cm, log);
      WaveStep(cfg, u, Delivered(cm, before), Run(cfg, before), log[|log| - 1]);
      FallbackStep(cfg, u, Delivered(cm, before), Run(cfg, before), log[|log| - 1]);
    }
  }

  // ----- The draw -----

  /** As long as nothing wraps, the index of a wave is the wave times a constant. */
  lemma IndexOfWave(wave: nat)
    requires wave < 0x5000_0000
    ensures FallbackIndex(wave) == wave * 0x9E37_7A39
  {
    assert wave % TWO64 == wave && wave / 0x200_0000_0000_0000 == 0;
    assert wave * 128 % TWO64 == wave * 128;
    assert wave * 0x9E37_79B9 < TWO64;
    assert wave * 0x9E37_79B9 % TWO64 == wave * 0x9E37_79B9;
  }

  lemma Wraps(q: nat, x: nat)
    requires x < TWO64
    ensures (q * TWO64 + x) % TWO64 == x
  {
  }

  lemma TopBits(high: nat, low: nat)
    requires low < 0x200_0000_0000_0000
    ensures (high * 0x200_0000_0000_0000 + low) / 0x200_0000_0000_0000 == high
  {
  }

  /** In general the seven top bits of the wave come back at the bottom, and sums and products wrap at 64 bits. */
  lemma IndexRotates(high: nat, low: nat)
    requires high < 128 && low < 0x200_0000_0000_0000
    ensures var wave := high * 0x200_0000_0000_0000 + low;
            FallbackIndex(wave) == (wave * 0x9E37_79B9 % TWO64 + (low * 128 + high)) % TWO64
  {
    var wave := high * 0x200_0000_0000_0000 + low;
    TopBits(high, low);
    Wraps(0, wave);
    Wraps(high, low * 128);
    assert wave * 128 == high * TWO64 + low * 128;
  }

  lemma KeyAt(cm: Committee, k: nat, index: nat)
    requires cm.Valid() && index == FallbackIndex(k)
    ensures var candidates := FallbackCandidates(cm, 4 * k + 2);
            FallbackKey(cm, 4 * k + 2) == if candidates == [] then None else Some(candidates[index % |candidates|])
  {
    hide FallbackIndex, FallbackCandidates;
    assert (4 * k + 2 - 2) / 4 == k;
  }

  /**
   * Wave `k` draws, from the authorities in ascending order without its two steady leaders, the one at its index: the draw moves
   * on by a fixed step from wave to wave.
   */
  lemma DrawExactly(cm: Committee, k: nat)
    requires cm.Valid() && k < 0x5000_0000
    ensures var candidates := FallbackCandidates(cm, 4 * k + 2);
            && KeysAscend(candidates)
            && (forall x :: x in candidates <==> x in cm.keys && x != cm.Leader(4 * k + 2) && x != cm.Leader(4 * k + 4))
            && FallbackKey(cm, 4 * k + 2) ==
               if candidates == [] then None else Some(candidates[(k * 0x9E37_7A39) % |candidates|])
  {
    hide FallbackIndex, FallbackKey, Committee.Leader;
    IndexOfWave(k);
    KeyAt(cm, k, k * 0x9E37_7A39);
    WithoutExact(cm.keys, {cm.Leader(4 * k + 2), cm.Leader(4 * k + 4)});
    WithoutAscends(cm.keys, {cm.Leader(4 * k + 2), cm.Leader(4 * k + 4)});
  }

  ghost predicate KeysAscend(ks: seq<Key>) {
    forall i, j :: 0 <= i < j < |ks| ==> ks[i] < ks[j]
  }

  lemma {:induction false} WithoutAscends(ks: seq<Key>, out: set<Key>)
    requires KeysAscend(ks)
    ensures KeysAscend(Without(ks, out))
    decreases |ks|
  {
    if ks != [] {
      var rest, all := ks[1..], Without(ks, out);
      assert forall i :: 0 <= i < |rest| ==> rest[i] == ks[i + 1];
      WithoutAscends(rest, out);
      WithoutExact(rest, out);
      var r := Without(rest, out);
      if ks[0] in out {
        assert all == r;
      } else {
        assert all == [ks[0]] + r;
        forall i, j | 0 <= i < j < |all|
          ensures all[i] < all[j]
        {
          assert all[j] == r[j - 1] && r[j - 1] in rest;
        }
      }
    }
  }

  /** The fallback of a wave leads neither of its steady rounds, whatever the 64-bit mixing draws. */
  lemma FallbackIsNotSteady(cm: Committee, first: Round, k: Key)
    requires cm.Valid() && FallbackKey(cm, first) == Some(k)
    ensures k in cm.keys && k != cm.Leader(first) && k != cm.Leader(first + 2)
  {
    WithoutExact(cm.keys, {cm.Leader(first), cm.Leader(first + 2)});
    assert k in FallbackCandidates(cm, first);
  }

  lemma CausalSupportPersists(cm: Committee, u: set<Certificate>, delivered: set<Certificate>, l: Certificate, c: Certificate)
    requires GoodDag(cm, u) && delivered <= u && CausallySupported(cm, u, delivered, l)
    requires c in u && l.round + 4 <= c.round
    ensures Reaches(u, c, l)
  {
    SupportPersists(cm, u, l, CausalSupport(u, delivered, l), l.round + 3, c);
  }

  /**
   * A committed fallback leads neither steady round of its wave and is an ancestor of every certificate, at any node,
   * from four rounds above it.
   */
  lemma CommittedFallbackPersists(cfg: Config, u: set<Certificate>, log: seq<Certificate>, l: Certificate, c: Certificate)
    requires cfg.dynamic && 1 <= cfg.walkStep && GoodDag(cfg.committee, u) && Causal(cfg.committee, u, log)
    requires l in Run(cfg, log).leaders
    ensures l.author in cfg.committee.keys
    ensures l.author != cfg.committee.Leader(l.round) && l.author != cfg.committee.Leader(l.round + 2)
    ensures l.round % 4 == 2
    ensures c in u && l.round + 4 <= c.round ==> Reaches(u, c, l)
  {
    hide GoodDag, Inv, Run, FallbackKey, CausallySupported, Causal, FallbacksSound, WavesInOrder;
    var cm := cfg.committee;
    GoodUnique(cm, u);
    RunInside(cfg, u, log);
    FallbackRun(cfg, u, log);
    CommittedFallbackFacts(cm, u, Delivered(cm, log), Run(cfg, log), l);
    FallbackIsNotSteady(cm, l.round, l.author);
    if c in u && l.round + 4 <= c.round {
      CausalSupportPersists(cm, u, Delivered(cm, log), l, c);
    }
  }

  lemma RunInside(cfg: Config, u: set<Certificate>, log: seq<Certificate>)
    requires GoodDag(cfg.committee, u) && 1 <= cfg.walkStep && Causal(cfg.committee, u, log)
    ensures Delivered(cfg.committee, log) <= u
  {
    RunSound(cfg, u, log);
  }

  lemma CommittedFallbackFacts(cm: Committee, u: set<Certificate>, delivered: set<Certificate>, n: Node, l: Certificate)
    requires cm.Valid() && WavesInOrder(cm, delivered, n) && FallbacksSound(cm, u, delivered, n) && l in n.leaders
    ensures l.round % 4 == 2 && FallbackKey(cm, l.round) == Some(l.author) && CausallySupported(cm, u, delivered, l)
  {
    hide FallbackKey, CausallySupported, QuorumAt;
    assert l.round in n.waves;
  }
}
