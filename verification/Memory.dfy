/** What the engine holds in memory, exactly: nothing below the horizon or its author's last committed round survives a commit. */
module Memory {
  import opened Collections
  import opened Committees
  import opened Dags
  import opened Engine
  import opened Retention
  import opened Commits

  /** Nothing in memory is more than `gcDepth` behind the last committed round, or below that of its author. */
  ghost predicate Clean(s: State, gcDepth: Round) {
    forall x :: x in s.dag ==>
      && s.lastCommittedRound <= x.round + gcDepth
      && (x.author in s.lastCommitted ==> s.lastCommitted[x.author] <= x.round)
  }

  lemma UpdateIsClean(s: State, c: Certificate, gcDepth: Round)
    ensures Clean(Update(s, c, gcDepth), gcDepth)
  {
  }

  lemma {:induction false} UpdateAllIsClean(s: State, xs: seq<Certificate>, gcDepth: Round)
    requires xs != []
    ensures Clean(UpdateAll(s, xs, gcDepth), gcDepth)
    decreases |xs|
  {
    hide Update, Clean;
    var s1 := Update(s, xs[0], gcDepth);
    if |xs| == 1 {
      UpdateIsClean(s, xs[0], gcDepth);
      assert UpdateAll(s1, xs[1..], gcDepth) == s1;
    } else {
      UpdateAllIsClean(s1, xs[1..], gcDepth);
    }
    assert UpdateAll(s, xs, gcDepth) == UpdateAll(s1, xs[1..], gcDepth);
  }

  lemma {:induction false} CommitIsClean(cm: Committee, gcDepth: Round, u: set<Certificate>, delivered: set<Certificate>,
                                         committed: set<Certificate>, s: State, ls: seq<Certificate>)
    requires Inv(cm, gcDepth, u, delivered, committed, s) && Committable(delivered, s, ls)
    ensures Clean(CommitLeaders(s, ls, gcDepth).0, gcDepth)
    decreases |ls|
  {
    hide Inv, Tight, OrderDag, UpdateAll, Clean;
    var leader := ls[|ls| - 1];
    assert leader in ls;
    var xs := OrderDag(s, leader, gcDepth);
    var s1 := CommitOne(s, leader, gcDepth);
    OrderDagBounds(cm, gcDepth, u, delivered, committed, s, leader);
    InvCommitOne(cm, gcDepth, u, delivered, committed, s, leader);
    CommitLeadersUnfold(s, ls, gcDepth);
    if |ls| == 1 {
      UpdateAllIsClean(s, xs, gcDepth);
      NothingToCommit(s1, gcDepth);
      assert ls[..0] == [];
    } else {
      CommittableRest(delivered, s, ls, s1);
      CommitIsClean(cm, gcDepth, u, delivered, committed + Members(xs), s1, ls[..|ls| - 1]);
    }
  }

  lemma CleanIsExact(cm: Committee, gcDepth: Round, u: set<Certificate>, delivered: set<Certificate>,
                     committed: set<Certificate>, s: State)
    requires Inv(cm, gcDepth, u, delivered, committed, s) && Clean(s, gcDepth)
    ensures forall x :: x in delivered ==> x.author in s.lastCommitted
    ensures forall x :: x in s.dag <==>
              x in delivered && s.lastCommitted[x.author] <= x.round && s.lastCommittedRound <= x.round + gcDepth
  {
    forall x | x in delivered
      ensures x.author in s.lastCommitted
    {
      AuthorInCommittee(cm, u, x);
    }
  }

  lemma GrewByReversed(a: seq<Certificate>, b: seq<Certificate>)
    ensures a + Reversed(b) == a <==> b == []
  {
    ReversedLength(b);
    if b != [] {
      assert |a + Reversed(b)| != |a|;
    }
  }

  lemma {:induction false} ReversedLength(xs: seq<Certificate>)
    ensures |Reversed(xs)| == |xs|
  {
    if xs != [] {
      ReversedLength(xs[1..]);
    }
  }

  /**
   * In every run a delivery that commits nothing adds its certificate to memory. One that commits leaves exactly the delivered
   * certificates not below their author's last committed round and not more than `gcDepth` behind the last committed round.
   */
  lemma MemoryExactly(cfg: Config, u: set<Certificate>, log: seq<Certificate>)
    requires GoodDag(cfg.committee, u) && 1 <= cfg.walkStep && Causal(cfg.committee, u, log) && log != []
    ensures cfg.committee.Valid()
    ensures var n, m := Run(cfg, log[..|log| - 1]), Run(cfg, log);
            if m.leaders == n.leaders then m.s.dag == n.s.dag + {log[|log| - 1]}
            else && (forall x :: x in Delivered(cfg.committee, log) ==> x.author in m.s.lastCommitted)
                 && forall x :: x in m.s.dag <==>
                      && x in Delivered(cfg.committee, log)
                      && m.s.lastCommitted[x.author] <= x.round && m.s.lastCommittedRound <= x.round + cfg.gcDepth
  {
    hide Inv, GoodDag, Clean, Committable, Tight, Deliver, ToCommit, Decide, CommitLeaders, Delivered, Accounted;
    var cm, before, c := cfg.committee, log[..|log| - 1], log[|log| - 1];
    GoodUnique(cm, u);
    RunSound(cfg, u, before);
    RunSound(cfg, u, log);
    DeliveredStep(cm, log);
    var n, m := Run(cfg, before), Run(cfg, log);
    var (s, ls) := ToCommit(cfg, n, c);
    ToCommitSound(cfg, u, Delivered(cm, before), n, c);
    GrewByReversed(n.leaders, ls);
    var committed := Genesis(cm) + Members(n.out);
    if ls == [] {
      Agreed(cfg, n, c);
      InvInsert(cm, cfg.gcDepth, u, Delivered(cm, before), committed, n.s, c);
    } else {
      CommitIsClean(cm, cfg.gcDepth, u, Delivered(cm, log), committed, s, ls);
      CleanIsExact(cm, cfg.gcDepth, u, Delivered(cm, log), Genesis(cm) + Members(m.out), m.s);
    }
  }

  lemma Agreed(cfg: Config, n: Node, c: Certificate)
    requires cfg.committee.Valid() && ToCommit(cfg, n, c).1 == []
    ensures Deliver(cfg, n, c).s.dag == Insert(n.s, c).dag
  {
    hide CommitLeaders;
  }
}
