/** Every run of the engine: its invariant, and the certificates it never outputs twice. */
module Commits {
  import opened Collections
  import opened Committees
  import opened Dags
  import opened Engine
  import opened Retention
  import opened SubDags

  // ----- The leaders a commit walks back over -----

  ghost predicate Descending(xs: seq<Certificate>) {
    forall i, j :: 0 <= i < j < |xs| ==> xs[j].round < xs[i].round
  }

  lemma {:induction false} RoundsDownMembers(from: int, to: Round, r: int)
    ensures r in RoundsDown(from, to) <==> to <= r <= from && (from - r) % 2 == 0
    decreases from
  {
    if to <= from {
      RoundsDownMembers(from - 2, to, r);
      assert r in RoundsDown(from, to) <==> r == from || r in RoundsDown(from - 2, to);
    }
  }

  /** The rounds visited: same parity as `from`, inside the bounds, strictly downwards, and all of them. */
  lemma {:induction false} RoundsDownExact(from: int, to: Round)
    ensures forall r :: r in RoundsDown(from, to) <==> to <= r <= from && (from - r) % 2 == 0
    ensures forall i, j :: 0 <= i < j < |RoundsDown(from, to)| ==> RoundsDown(from, to)[j] < RoundsDown(from, to)[i]
    decreases from
  {
    forall r: Round
      ensures r in RoundsDown(from, to) <==> to <= r <= from && (from - r) % 2 == 0
    {
      RoundsDownMembers(from, to, r);
    }
    if to <= from {
      var rest := RoundsDown(from - 2, to);
      RoundsDownExact(from - 2, to);
      assert forall i :: 0 <= i < |rest| ==> rest[i] in rest;
    }
  }

  ghost predicate StrictlyDown(rounds: seq<Round>, below: Round) {
    && (forall i, j :: 0 <= i < j < |rounds| ==> rounds[j] < rounds[i])
    && (forall r :: r in rounds ==> r < below)
  }

  /** Each leader has a path to the one committed before it. */
  ghost predicate Chained(dag: set<Certificate>, xs: seq<Certificate>) {
    forall i :: 0 <= i < |xs| - 1 ==> Linked(dag, xs[i], xs[i + 1])
  }

  /** The leaders of the backward walk, latest first: of the rounds visited, strictly descending, each linked to the next. */
  lemma {:induction false} WalkIsChain(cm: Committee, dag: set<Certificate>, rounds: seq<Round>, leader: Certificate)
    requires cm.Valid() && StrictlyDown(rounds, leader.round)
    ensures var ls := [leader] + Walk(cm, dag, rounds, leader);
            && Descending(ls) && Chained(dag, ls)
            && forall x :: x in ls && x != leader ==> x in dag && x.round in rounds && x.author == cm.Leader(x.round)
    decreases |rounds|
  {
    hide Linked, LeaderAt;
    WalkDescends(cm, dag, rounds, leader);
    if rounds != [] {
      TailDown(rounds, leader.round);
      FoundBelow(cm, dag, rounds[0]);
      var found := LeaderAt(cm, dag, rounds[0]);
      if found.Some? && Linked(dag, leader, found.value) {
        WalkIsChain(cm, dag, rounds[1..], found.value);
        var rest := [found.value] + Walk(cm, dag, rounds[1..], found.value);
        hide Walk, Descending;
        ChainPrepends(dag, leader, rest);
      } else {
        WalkIsChain(cm, dag, rounds[1..], leader);
      }
    }
  }

  lemma TailDown(rounds: seq<Round>, below: Round)
    requires StrictlyDown(rounds, below) && rounds != []
    ensures StrictlyDown(rounds[1..], below) && StrictlyDown(rounds[1..], rounds[0])
    ensures forall r :: r in rounds[1..] ==> r in rounds
  {
    var rest := rounds[1..];
    assert forall i :: 0 <= i < |rest| ==> rest[i] == rounds[i + 1];
    forall r | r in rest
      ensures r in rounds && r < rounds[0]
    {
      var i :| 0 <= i < |rest| && rest[i] == r;
    }
  }

  lemma FoundBelow(cm: Committee, dag: set<Certificate>, r: Round)
    requires cm.Valid()
    ensures LeaderAt(cm, dag, r).Some? ==> LeaderAt(cm, dag, r).value.round == r
  {
  }

  lemma ChainPrepends(dag: set<Certificate>, x: Certificate, rest: seq<Certificate>)
    requires rest != [] && Chained(dag, rest) && Linked(dag, x, rest[0])
    ensures Chained(dag, [x] + rest)
  {
    hide Linked;
    var all := [x] + rest;
    forall i | 0 <= i < |all| - 1
      ensures Linked(dag, all[i], all[i + 1])
    {
      assert 0 < i ==> all[i] == rest[i - 1] && all[i + 1] == rest[i];
    }
  }

  lemma {:induction false} WalkDescends(cm: Committee, dag: set<Certificate>, rounds: seq<Round>, leader: Certificate)
    requires cm.Valid() && StrictlyDown(rounds, leader.round)
    ensures Descending([leader] + Walk(cm, dag, rounds, leader))
    ensures forall x :: x in Walk(cm, dag, rounds, leader) ==> x in dag && x.round in rounds && x.author == cm.Leader(x.round)
    decreases |rounds|
  {
    if rounds != [] {
      assert rounds[0] in rounds && forall r :: r in rounds[1..] ==> r in rounds;
      assert forall i :: 1 <= i < |rounds| ==> rounds[i] == rounds[1..][i - 1];
      var found := LeaderAt(cm, dag, rounds[0]);
      if found.Some? && Linked(dag, leader, found.value) {
        WalkDescends(cm, dag, rounds[1..], found.value);
      } else {
        WalkDescends(cm, dag, rounds[1..], leader);
      }
    }
  }

  ghost predicate Committable(delivered: set<Certificate>, s: State, ls: seq<Certificate>) {
    && ls != []
    && Descending(ls)
    && (forall x :: x in ls ==> x in delivered && s.lastCommittedRound < x.round)
  }

  lemma LeadersAreCommittable(cfg: Config, delivered: set<Certificate>, s: State, leader: Certificate)
    requires cfg.committee.Valid() && 1 <= cfg.walkStep
    requires s.dag <= delivered && leader in delivered && s.lastCommittedRound < leader.round
    ensures Committable(delivered, s, LeadersToCommit(cfg, s, leader))
    ensures LeadersToCommit(cfg, s, leader)[0] == leader
  {
    if !cfg.dynamic {
      var rounds := RoundsDown(leader.round - cfg.walkStep, s.lastCommittedRound + 2);
      RoundsDownExact(leader.round - cfg.walkStep, s.lastCommittedRound + 2);
      WalkDescends(cfg.committee, s.dag, rounds, leader);
    }
  }

  // ----- One leader -----

  lemma VisibleLayered(cm: Committee, gcDepth: Round, u: set<Certificate>, delivered: set<Certificate>,
                       committed: set<Certificate>, s: State, leader: Certificate)
    requires Inv(cm, gcDepth, u, delivered, committed, s) && leader in delivered
    ensures Layered(Visible(s), leader)
  {
    hide Inv, GoodDag;
    InvBasics(cm, gcDepth, u, delivered, committed, s);
    GoodUnique(cm, u);
    forall x, y | x in Visible(s) + {leader} && y in Visible(s) && Edge(x, y)
      ensures y.round + 1 == x.round
    {
      EdgeRound(cm, u, x, y);
    }
  }

  /** A sub-DAG stays inside what was delivered, at or below its leader, which closes it. */
  lemma OrderDagBounds(cm: Committee, gcDepth: Round, u: set<Certificate>, delivered: set<Certificate>,
                       committed: set<Certificate>, s: State, leader: Certificate)
    requires Inv(cm, gcDepth, u, delivered, committed, s)
    requires leader in delivered && s.lastCommittedRound <= leader.round
    ensures Members(OrderDag(s, leader, gcDepth)) <= delivered
    ensures BoundedBy(OrderDag(s, leader, gcDepth), leader.round)
    ensures leader in OrderDag(s, leader, gcDepth) && NoRepeats(OrderDag(s, leader, gcDepth))
  {
    VisibleLayered(cm, gcDepth, u, delivered, committed, s, leader);
    OrderDagExact(s, leader, gcDepth);
    forall c | c in OrderDag(s, leader, gcDepth)
      ensures c in delivered && c.round <= leader.round
    {
      ReachesRound(Visible(s), leader, c);
    }
    assert Reaches(Visible(s), leader, leader);
  }

  /** With no stale certificate in memory, a sub-DAG repeats nothing. */
  lemma OrderDagNew(cm: Committee, gcDepth: Round, u: set<Certificate>, delivered: set<Certificate>,
                    committed: set<Certificate>, s: State, leader: Certificate)
    requires Inv(cm, gcDepth, u, delivered, committed, s) && Tight(committed, s)
    requires leader in delivered && s.lastCommittedRound < leader.round
    ensures Members(OrderDag(s, leader, gcDepth)) !! committed
  {
    VisibleLayered(cm, gcDepth, u, delivered, committed, s, leader);
    OrderDagExact(s, leader, gcDepth);
    forall c | c in OrderDag(s, leader, gcDepth)
      ensures c !in committed
    {
      ReachesRound(Visible(s), leader, c);
      if c in committed {
        CommittedBound(cm, committed, s, c);
      }
    }
  }

  ghost function CommitOne(s: State, leader: Certificate, gcDepth: Round): State {
    UpdateAll(s, OrderDag(s, leader, gcDepth), gcDepth)
  }

  lemma InvCommitOne(cm: Committee, gcDepth: Round, u: set<Certificate>, delivered: set<Certificate>,
                     committed: set<Certificate>, s: State, leader: Certificate)
    requires Inv(cm, gcDepth, u, delivered, committed, s)
    requires leader in delivered && s.lastCommittedRound < leader.round
    ensures var after := committed + Members(OrderDag(s, leader, gcDepth));
            && Inv(cm, gcDepth, u, delivered, after, CommitOne(s, leader, gcDepth))
            && Tight(after, CommitOne(s, leader, gcDepth))
    ensures CommitOne(s, leader, gcDepth).lastCommittedRound == leader.round
    ensures CommitOne(s, leader, gcDepth).resolved == s.resolved
  {
    var xs := OrderDag(s, leader, gcDepth);
    OrderDagBounds(cm, gcDepth, u, delivered, committed, s, leader);
    InvUpdateAll(cm, gcDepth, u, delivered, committed, s, xs, committed + Members(xs));
    UpdateAllRound(cm, gcDepth, u, delivered, committed, s, xs, leader.round);
    UpdateAllResolved(s, xs, gcDepth);
  }

  // ----- All leaders of one commit -----

  lemma CommitLeadersUnfold(s: State, ls: seq<Certificate>, gcDepth: Round)
    requires ls != []
    ensures var leader := ls[|ls| - 1];
            var rest := CommitLeaders(CommitOne(s, leader, gcDepth), ls[..|ls| - 1], gcDepth);
            CommitLeaders(s, ls, gcDepth) == (rest.0, OrderDag(s, leader, gcDepth) + rest.1)
  {
  }

  lemma ElementsConcat(xs: seq<Certificate>, ys: seq<Certificate>)
    ensures Members(xs + ys) == Members(xs) + Members(ys)
  {
  }

  lemma CommittableRest(delivered: set<Certificate>, s: State, ls: seq<Certificate>, s1: State)
    requires Committable(delivered, s, ls) && 1 < |ls| && s1.lastCommittedRound == ls[|ls| - 1].round
    ensures Committable(delivered, s1, ls[..|ls| - 1])
  {
    var rest := ls[..|ls| - 1];
    forall x | x in rest
      ensures x in delivered && s1.lastCommittedRound < x.round
    {
      assert x in ls;
    }
  }

  lemma {:induction false} InvCommitLeaders(cm: Committee, gcDepth: Round, u: set<Certificate>, delivered: set<Certificate>,
                                            committed: set<Certificate>, s: State, ls: seq<Certificate>, after: set<Certificate>)
    requires Inv(cm, gcDepth, u, delivered, committed, s) && Committable(delivered, s, ls)
    requires after == committed + Members(CommitLeaders(s, ls, gcDepth).1)
    ensures var s' := CommitLeaders(s, ls, gcDepth).0;
            && Inv(cm, gcDepth, u, delivered, after, s')
            && Tight(after, s')
            && s'.lastCommittedRound == ls[0].round
            && s'.resolved == s.resolved
    decreases |ls|
  {
    hide Inv, Tight, OrderDag, UpdateAll;
    var leader := ls[|ls| - 1];
    assert leader in ls;
    var xs := OrderDag(s, leader, gcDepth);
    var s1 := CommitOne(s, leader, gcDepth);
    InvCommitOne(cm, gcDepth, u, delivered, committed, s, leader);
    CommitLeadersUnfold(s, ls, gcDepth);
    ElementsConcat(xs, CommitLeaders(s1, ls[..|ls| - 1], gcDepth).1);
    if |ls| == 1 {
      assert after == committed + Members(xs);
    } else {
      CommittableRest(delivered, s, ls, s1);
      InvCommitLeaders(cm, gcDepth, u, delivered, committed + Members(xs), s1, ls[..|ls| - 1], after);
    }
  }

  lemma {:induction false} CausalInside(cm: Committee, u: set<Certificate>, log: seq<Certificate>)
    requires Causal(cm, u, log)
    ensures Members(log) <= u
    decreases |log|
  {
    if log != [] {
      var before := log[..|log| - 1];
      CausalInside(cm, u, before);
      assert log == before + [log[|log| - 1]];
      ElementsConcat(before, [log[|log| - 1]]);
    }
  }

  lemma {:induction false} CommitLeadersDistinct(cm: Committee, gcDepth: Round, u: set<Certificate>, delivered: set<Certificate>,
                                                 committed: set<Certificate>, s: State, ls: seq<Certificate>)
    requires Inv(cm, gcDepth, u, delivered, committed, s) && Committable(delivered, s, ls) && Tight(committed, s)
    ensures NoRepeats(CommitLeaders(s, ls, gcDepth).1)
    ensures Members(CommitLeaders(s, ls, gcDepth).1) !! committed
    decreases |ls|
  {
    var leader := ls[|ls| - 1];
    assert leader in ls;
    var xs := OrderDag(s, leader, gcDepth);
    var s1 := CommitOne(s, leader, gcDepth);
    InvCommitOne(cm, gcDepth, u, delivered, committed, s, leader);
    OrderDagBounds(cm, gcDepth, u, delivered, committed, s, leader);
    OrderDagNew(cm, gcDepth, u, delivered, committed, s, leader);
    CommitLeadersUnfold(s, ls, gcDepth);
    var out := CommitLeaders(s1, ls[..|ls| - 1], gcDepth).1;
    ElementsConcat(xs, out);
    if |ls| != 1 {
      CommittableRest(delivered, s, ls, s1);
      CommitLeadersDistinct(cm, gcDepth, u, delivered, committed + Members(xs), s1, ls[..|ls| - 1]);
    }
    DistinctConcat(xs, out);
  }

  /** The sub-DAG of `leader` runs into a certificate of `past` above the horizon that the search does not skip. */
  ghost predicate ReachesStale(s: State, leader: Certificate, gcDepth: Round, past: set<Certificate>) {
    exists x :: x in past && x in Visible(s) && Reaches(Visible(s), leader, x) && s.lastCommittedRound <= x.round + gcDepth
  }

  /** A sub-DAG repeats a committed certificate exactly if it runs into a stale one. */
  lemma OrderDagMeets(cm: Committee, gcDepth: Round, u: set<Certificate>, delivered: set<Certificate>,
                      committed: set<Certificate>, s: State, leader: Certificate, past: set<Certificate>)
    requires Inv(cm, gcDepth, u, delivered, committed, s) && past <= committed
    requires leader in delivered && s.lastCommittedRound < leader.round
    ensures Members(OrderDag(s, leader, gcDepth)) !! past <==> !ReachesStale(s, leader, gcDepth, past)
  {
    hide OrderDag, Visible;
    VisibleLayered(cm, gcDepth, u, delivered, committed, s, leader);
    OrderDagExact(s, leader, gcDepth);
    forall c | c in OrderDag(s, leader, gcDepth) && c in past
      ensures ReachesStale(s, leader, gcDepth, past)
    {
      ReachesRound(Visible(s), leader, c);
      CommittedBound(cm, committed, s, c);
    }
    if ReachesStale(s, leader, gcDepth, past) {
      var x :| x in past && x in Visible(s) && Reaches(Visible(s), leader, x) && s.lastCommittedRound <= x.round + gcDepth;
      assert x in Members(OrderDag(s, leader, gcDepth));
    }
  }

  /**
   * The exact guard of a commit: however many leaders it has, it repeats nothing within itself, and it repeats a committed
   * certificate exactly if its oldest leader runs into a stale one. The first sub-DAG cleans up for the others.
   */
  lemma CommitRepeatsExactly(cm: Committee, gcDepth: Round, u: set<Certificate>, delivered: set<Certificate>,
                             committed: set<Certificate>, s: State, ls: seq<Certificate>, past: set<Certificate>)
    requires Inv(cm, gcDepth, u, delivered, committed, s) && Committable(delivered, s, ls) && past <= committed
    ensures var out := CommitLeaders(s, ls, gcDepth).1;
            && NoRepeats(out)
            && (Members(out) !! past <==> !ReachesStale(s, ls[|ls| - 1], gcDepth, past))
  {
    hide Inv, Tight, OrderDag, ReachesStale, UpdateAll;
    var leader := ls[|ls| - 1];
    assert leader in ls;
    var xs := OrderDag(s, leader, gcDepth);
    var s1 := CommitOne(s, leader, gcDepth);
    OrderDagMeets(cm, gcDepth, u, delivered, committed, s, leader, past);
    OrderDagBounds(cm, gcDepth, u, delivered, committed, s, leader);
    InvCommitOne(cm, gcDepth, u, delivered, committed, s, leader);
    CommitLeadersUnfold(s, ls, gcDepth);
    var out := CommitLeaders(s1, ls[..|ls| - 1], gcDepth).1;
    ElementsConcat(xs, out);
    if |ls| != 1 {
      CommittableRest(delivered, s, ls, s1);
      CommitLeadersDistinct(cm, gcDepth, u, delivered, committed + Members(xs), s1, ls[..|ls| - 1]);
    }
    DistinctConcat(xs, out);
  }

  lemma DistinctConcat(xs: seq<Certificate>, ys: seq<Certificate>)
    requires NoRepeats(xs) && NoRepeats(ys) && Members(xs) !! Members(ys)
    ensures NoRepeats(xs + ys)
  {
    forall i, j | 0 <= i < |xs| && 0 <= j < |ys|
      ensures xs[i] != ys[j]
    {
      assert xs[i] in Members(xs) && ys[j] in Members(ys);
    }
  }

  lemma DistinctSplit(xs: seq<Certificate>, ys: seq<Certificate>)
    requires NoRepeats(xs + ys)
    ensures NoRepeats(xs) && Members(xs) !! Members(ys)
  {
    assert forall i :: 0 <= i < |xs| ==> xs[i] == (xs + ys)[i];
    forall i, j | 0 <= i < |xs| && 0 <= j < |ys|
      ensures xs[i] != ys[j]
    {
      assert (xs + ys)[i] == xs[i] && (xs + ys)[|xs| + j] == ys[j];
    }
  }

  // ----- One delivery -----

  lemma DecideCommits(cfg: Config, s: State, round: Round)
    requires cfg.committee.Valid() && Decide(cfg, s, round).Commit?
    ensures var leader := Decide(cfg, s, round).leader;
            && leader in s.dag
            && LeaderRound(cfg.dynamic, round) == Some(leader.round)
            && s.lastCommittedRound < leader.round < round
  {
  }

  ghost predicate Sound(cfg: Config, u: set<Certificate>, delivered: set<Certificate>, n: Node) {
    Inv(cfg.committee, cfg.gcDepth, u, delivered, Genesis(cfg.committee) + Members(n.out), n.s)
  }

  ghost predicate Fresh(cfg: Config, n: Node) {
    && Tight(Genesis(cfg.committee) + Members(n.out), n.s)
    && NoRepeats(n.out)
    && Members(n.out) !! Genesis(cfg.committee)
  }

  /** `c` is not a committed certificate from below its author's last committed round. */
  ghost predicate NotStale(cfg: Config, n: Node, c: Certificate) {
    c in Genesis(cfg.committee) || c in n.out ==> c.author in n.s.lastCommitted && n.s.lastCommitted[c.author] <= c.round
  }

  lemma ResolveKeepsInv(cfg: Config, u: set<Certificate>, delivered: set<Certificate>, committed: set<Certificate>,
                        s: State, r: Round)
    requires Inv(cfg.committee, cfg.gcDepth, u, delivered, committed, s)
    ensures Inv(cfg.committee, cfg.gcDepth, u, delivered, committed, Resolve(cfg, s, r))
    ensures Tight(committed, s) ==> Tight(committed, Resolve(cfg, s, r))
  {
  }

  lemma CommitSound(cfg: Config, u: set<Certificate>, delivered: set<Certificate>, s: State, out: seq<Certificate>,
                    leader: Certificate)
    requires 1 <= cfg.walkStep && leader in delivered && s.lastCommittedRound < leader.round
    requires Inv(cfg.committee, cfg.gcDepth, u, delivered, Genesis(cfg.committee) + Members(out), s)
    ensures var r := CommitLeaders(s, LeadersToCommit(cfg, s, leader), cfg.gcDepth);
            var after := Genesis(cfg.committee) + Members(out + r.1);
            && Inv(cfg.committee, cfg.gcDepth, u, delivered, after, r.0)
            && Tight(after, r.0)
            && r.0.lastCommittedRound == leader.round
            && r.0.resolved == s.resolved
    ensures var r := CommitLeaders(s, LeadersToCommit(cfg, s, leader), cfg.gcDepth);
            var committed := Genesis(cfg.committee) + Members(out);
            Tight(committed, s) && NoRepeats(out) ==>
              NoRepeats(out + r.1) && Members(r.1) !! Genesis(cfg.committee)
  {
    hide Inv, Tight, CommitLeaders, LeadersToCommit;
    var committed := Genesis(cfg.committee) + Members(out);
    InvBasics(cfg.committee, cfg.gcDepth, u, delivered, committed, s);
    var ls := LeadersToCommit(cfg, s, leader);
    LeadersAreCommittable(cfg, delivered, s, leader);
    var added := CommitLeaders(s, ls, cfg.gcDepth).1;
    ElementsConcat(out, added);
    InvCommitLeaders(cfg.committee, cfg.gcDepth, u, delivered, committed, s, ls, Genesis(cfg.committee) + Members(out + added));
    if Tight(committed, s) && NoRepeats(out) {
      CommitLeadersDistinct(cfg.committee, cfg.gcDepth, u, delivered, committed, s, ls);
      DistinctConcat(out, added);
    }
  }

  lemma DeliverSound(cfg: Config, u: set<Certificate>, delivered: set<Certificate>, n: Node, c: Certificate)
    requires 1 <= cfg.walkStep && Sound(cfg, u, delivered, n)
    requires c in u && forall y :: y in u && Edge(c, y) ==> y in delivered
    ensures Sound(cfg, u, delivered + {c}, Deliver(cfg, n, c))
    ensures Fresh(cfg, n) && NotStale(cfg, n, c) ==> Fresh(cfg, Deliver(cfg, n, c))
  {
    hide Inv, Tight, Decide, CommitLeaders;
    var committed := Genesis(cfg.committee) + Members(n.out);
    var s := Insert(n.s, c);
    InvBasics(cfg.committee, cfg.gcDepth, u, delivered, committed, n.s);
    InvInsert(cfg.committee, cfg.gcDepth, u, delivered, committed, n.s, c);
    match Decide(cfg, s, c.round)
    case Wait =>
    case Skip(r) => ResolveKeepsInv(cfg, u, delivered + {c}, committed, s, r);
    case Commit(leader) =>
      DecideCommits(cfg, s, c.round);
      InvBasics(cfg.committee, cfg.gcDepth, u, delivered + {c}, committed, s);
      ResolveKeepsInv(cfg, u, delivered + {c}, committed, s, leader.round);
      CommitSound(cfg, u, delivered + {c}, Resolve(cfg, s, leader.round), n.out, leader);
      ElementsConcat(n.out, CommitLeaders(Resolve(cfg, s, leader.round),
                                          LeadersToCommit(cfg, Resolve(cfg, s, leader.round), leader), cfg.gcDepth).1);
  }

  // ----- Whole runs -----

  lemma DeliveredStep(cm: Committee, log: seq<Certificate>)
    requires log != []
    ensures Delivered(cm, log) == Delivered(cm, log[..|log| - 1]) + {log[|log| - 1]}
  {
    assert log == log[..|log| - 1] + [log[|log| - 1]];
  }

  /** Every state the engine can reach, whatever was delivered late or twice, satisfies the invariant. */
  lemma {:induction false} RunSound(cfg: Config, u: set<Certificate>, log: seq<Certificate>)
    requires GoodDag(cfg.committee, u) && 1 <= cfg.walkStep && Causal(cfg.committee, u, log)
    ensures Sound(cfg, u, Delivered(cfg.committee, log), Run(cfg, log))
    decreases |log|
  {
    if log == [] {
      InvInitial(cfg.committee, cfg.gcDepth, u);
      assert Delivered(cfg.committee, log) == Genesis(cfg.committee);
      assert Genesis(cfg.committee) + Members(Run(cfg, log).out) == Genesis(cfg.committee);
    } else {
      var before := log[..|log| - 1];
      RunSound(cfg, u, before);
      DeliveredStep(cfg.committee, log);
      DeliverSound(cfg, u, Delivered(cfg.committee, before), Run(cfg, before), log[|log| - 1]);
    }
  }

  /** No delivery of the log hands back a committed certificate from below its author's last committed round. */
  ghost predicate NeverStale(cfg: Config, log: seq<Certificate>)
    requires cfg.committee.Valid()
    decreases |log|
  {
    log == [] || (NeverStale(cfg, log[..|log| - 1]) && NotStale(cfg, Run(cfg, log[..|log| - 1]), log[|log| - 1]))
  }

  lemma {:induction false} RunFresh(cfg: Config, u: set<Certificate>, log: seq<Certificate>)
    requires GoodDag(cfg.committee, u) && 1 <= cfg.walkStep && Causal(cfg.committee, u, log) && NeverStale(cfg, log)
    ensures Fresh(cfg, Run(cfg, log))
    decreases |log|
  {
    if log == [] {
      InvInitial(cfg.committee, cfg.gcDepth, u);
      assert Genesis(cfg.committee) + Members(Run(cfg, log).out) == Genesis(cfg.committee);
    } else {
      var before := log[..|log| - 1];
      RunFresh(cfg, u, before);
      RunSound(cfg, u, before);
      DeliverSound(cfg, u, Delivered(cfg.committee, before), Run(cfg, before), log[|log| - 1]);
    }
  }

  /** No certificate is output twice, nor is a genesis certificate output. */
  lemma NoDoubleCommit(cfg: Config, u: set<Certificate>, log: seq<Certificate>)
    requires GoodDag(cfg.committee, u) && 1 <= cfg.walkStep && Causal(cfg.committee, u, log) && NeverStale(cfg, log)
    ensures forall i, j :: 0 <= i < j < |Run(cfg, log).out| ==> Run(cfg, log).out[i] != Run(cfg, log).out[j]
    ensures forall c :: c in Run(cfg, log).out ==> c in log && c !in Genesis(cfg.committee)
  {
    RunFresh(cfg, u, log);
    RunSound(cfg, u, log);
    forall c | c in Run(cfg, log).out
      ensures c in log && c !in Genesis(cfg.committee)
    {
      assert c in Members(Run(cfg, log).out);
    }
  }

  // ----- Exactly when nothing is output twice -----

  /** What handling `c` commits, oldest leader last, and the state it is committed from; nothing if it commits nothing. */
  ghost function ToCommit(cfg: Config, n: Node, c: Certificate): (State, seq<Certificate>)
    requires cfg.committee.Valid()
  {
    var s := Insert(n.s, c);
    match Decide(cfg, s, c.round)
    case Commit(leader) =>
      var s1 := Resolve(cfg, s, leader.round);
      (s1, LeadersToCommit(cfg, s1, leader))
    case _ => (s, [])
  }

  /** Handling `c` makes the oldest leader to be committed run into a certificate already output. */
  ghost predicate CommitsStale(cfg: Config, n: Node, c: Certificate)
    requires cfg.committee.Valid()
  {
    var (s, ls) := ToCommit(cfg, n, c);
    ls != [] && ReachesStale(s, ls[|ls| - 1], cfg.gcDepth, Members(n.out))
  }

  ghost predicate NeverReachesStale(cfg: Config, log: seq<Certificate>)
    requires cfg.committee.Valid()
    decreases |log|
  {
    log == [] ||
    (NeverReachesStale(cfg, log[..|log| - 1]) && !CommitsStale(cfg, Run(cfg, log[..|log| - 1]), log[|log| - 1]))
  }

  /** The leaders of the next commit, and the invariant they are committed under. */
  lemma ToCommitSound(cfg: Config, u: set<Certificate>, delivered: set<Certificate>, n: Node, c: Certificate)
    requires 1 <= cfg.walkStep && Sound(cfg, u, delivered, n) && cfg.committee.Valid()
    requires c in u && forall y :: y in u && Edge(c, y) ==> y in delivered
    ensures var (s, ls) := ToCommit(cfg, n, c);
            && Inv(cfg.committee, cfg.gcDepth, u, delivered + {c}, Genesis(cfg.committee) + Members(n.out), s)
            && s.lastCommittedRound == n.s.lastCommittedRound
            && (Tight(Genesis(cfg.committee) + Members(n.out), Insert(n.s, c)) ==>
                  Tight(Genesis(cfg.committee) + Members(n.out), s))
            && (ls != [] ==> Committable(delivered + {c}, s, ls))
            && Deliver(cfg, n, c).out == n.out + CommitLeaders(s, ls, cfg.gcDepth).1
            && Deliver(cfg, n, c).leaders == n.leaders + Reversed(ls)
            && (ls != [] ==> Deliver(cfg, n, c).s == CommitLeaders(s, ls, cfg.gcDepth).0)
  {
    hide Inv, Tight, Decide, CommitLeaders, LeadersToCommit, Committable;
    var committed := Genesis(cfg.committee) + Members(n.out);
    var s := Insert(n.s, c);
    var none: seq<Certificate> := [];
    assert n.out + none == n.out && n.leaders + none == n.leaders && Reversed(none) == none;
    assert CommitLeaders(s, none, cfg.gcDepth) == (s, none) by { NothingToCommit(s, cfg.gcDepth); }
    InvBasics(cfg.committee, cfg.gcDepth, u, delivered, committed, n.s);
    InvInsert(cfg.committee, cfg.gcDepth, u, delivered, committed, n.s, c);
    if Decide(cfg, s, c.round).Commit? {
      var leader := Decide(cfg, s, c.round).leader;
      DecideCommits(cfg, s, c.round);
      InvBasics(cfg.committee, cfg.gcDepth, u, delivered + {c}, committed, s);
      ResolveKeepsInv(cfg, u, delivered + {c}, committed, s, leader.round);
      LeadersAreCommittable(cfg, delivered + {c}, Resolve(cfg, s, leader.round), leader);
    }
  }

  lemma NothingToCommit(s: State, gcDepth: Round)
    ensures CommitLeaders(s, [], gcDepth) == (s, [])
  {
  }

  lemma DeliverRepeatsExactly(cfg: Config, u: set<Certificate>, delivered: set<Certificate>, n: Node, c: Certificate)
    requires 1 <= cfg.walkStep && Sound(cfg, u, delivered, n) && cfg.committee.Valid()
    requires c in u && forall y :: y in u && Edge(c, y) ==> y in delivered
    ensures NoRepeats(Deliver(cfg, n, c).out) <==> NoRepeats(n.out) && !CommitsStale(cfg, n, c)
  {
    hide Inv, Tight, CommitLeaders, Committable, ToCommit, ReachesStale, Deliver, NoRepeats;
    var (s, ls) := ToCommit(cfg, n, c);
    var committed := Genesis(cfg.committee) + Members(n.out);
    ToCommitSound(cfg, u, delivered, n, c);
    var out := CommitLeaders(s, ls, cfg.gcDepth).1;
    if ls == [] {
      NothingToCommit(s, cfg.gcDepth);
      assert n.out + out == n.out;
    } else {
      CommitRepeatsExactly(cfg.committee, cfg.gcDepth, u, delivered + {c}, committed, s, ls, Members(n.out));
      if NoRepeats(n.out + out) {
        DistinctSplit(n.out, out);
      } else if NoRepeats(n.out) && Members(out) !! Members(n.out) {
        DistinctConcat(n.out, out);
      }
    }
  }

  /**
   * In every run, whatever is delivered late or again, nothing is output twice exactly if no commit's oldest leader ever
   * runs into a certificate already output.
   */
  lemma {:induction false} NoDoubleCommitExactly(cfg: Config, u: set<Certificate>, log: seq<Certificate>)
    requires GoodDag(cfg.committee, u) && 1 <= cfg.walkStep && Causal(cfg.committee, u, log)
    ensures cfg.committee.Valid()
    ensures NoRepeats(Run(cfg, log).out) <==> NeverReachesStale(cfg, log)
    decreases |log|
  {
    hide GoodDag, NoRepeats, CommitsStale, Sound, Deliver;
    GoodUnique(cfg.committee, u);
    if log == [] {
      NoneRepeats();
    } else {
      var before := log[..|log| - 1];
      NoDoubleCommitExactly(cfg, u, before);
      RunSound(cfg, u, before);
      DeliverRepeatsExactly(cfg, u, Delivered(cfg.committee, before), Run(cfg, before), log[|log| - 1]);
    }
  }

  lemma NoneRepeats()
    ensures NoRepeats<Certificate>([])
  {
  }
}
