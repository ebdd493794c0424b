/** What a node outputs is a function of the leaders it commits, not of what else it received or when. */
module Agreement {
  import opened Collections
  import opened Committees
  import opened Dags
  import opened Engine
  import opened Retention
  import opened SubDags
  import opened Commits

  /** Each certificate descends from its author's earlier ones. */
  ghost predicate OwnHistory(u: set<Certificate>) {
    forall a, b {:trigger Reaches(u, b, a)} ::
      a in u && b in u && a.author == b.author && 1 <= a.round < b.round ==> Reaches(u, b, a)
  }

  /** Whatever a committed certificate descends from, down to the garbage-collection horizon, is committed too. */
  ghost predicate Closed(u: set<Certificate>, committed: set<Certificate>, lcr: Round, gcDepth: Round) {
    forall c, a {:trigger Reaches(u, c, a)} :: c in committed && a in u && Reaches(u, c, a) && lcr <= a.round + gcDepth ==> a in committed
  }

  /** The uncommitted proper ancestors of `leader` above the horizon: no mention of any node's memory. */
  ghost function Pending(u: set<Certificate>, committed: set<Certificate>, lcr: Round, gcDepth: Round,
                         leader: Certificate): set<Certificate> {
    set x | x in u && x != leader && Reaches(u, leader, x) && x !in committed && lcr <= x.round + gcDepth
  }

  // ----- A node's memory against that set -----

  lemma EarlierCommitted(u: set<Certificate>, committed: set<Certificate>, lcr: Round, gcDepth: Round,
                         x: Certificate, y: Certificate)
    requires SlotUnique(u) && OwnHistory(u) && Closed(u, committed, lcr, gcDepth)
    requires x in u && y in u && y in committed && x.author == y.author && 1 <= x.round <= y.round
    requires lcr <= x.round + gcDepth
    ensures x in committed
  {
    if x.round == y.round {
      assert SameSlot(x, y);
    } else {
      assert Reaches(u, y, x);
    }
  }

  /** An uncommitted ancestor above the horizon is in memory and not at its author's last committed round. */
  lemma PendingIsVisible(cm: Committee, gcDepth: Round, u: set<Certificate>, delivered: set<Certificate>,
                         committed: set<Certificate>, s: State, leader: Certificate, x: Certificate)
    requires Inv(cm, gcDepth, u, delivered, committed, s) && leader in delivered
    requires OwnHistory(u) && Closed(u, committed, s.lastCommittedRound, gcDepth)
    requires x in Pending(u, committed, s.lastCommittedRound, gcDepth, leader)
    ensures x in Visible(s)
  {
    ReachesInside(u, delivered, leader, x);
    AuthorInCommittee(cm, u, x);
    var y :| y in committed && y.author == x.author && y.round == s.lastCommitted[x.author];
    if x.round <= y.round {
      EarlierCommitted(u, committed, s.lastCommittedRound, gcDepth, x, y);
    }
  }

  /** A path down to an uncommitted certificate crosses no committed one. */
  lemma {:induction false} PendingReachable(u: set<Certificate>, committed: set<Certificate>, lcr: Round, gcDepth: Round,
                                            leader: Certificate, x: Certificate, c: Certificate)
    requires Closed(u, committed, lcr, gcDepth) && Reaches(u, leader, x) && Reaches(u, x, c)
    requires c in Pending(u, committed, lcr, gcDepth, leader)
    ensures Reaches(Pending(u, committed, lcr, gcDepth, leader), x, c)
    decreases x.round
  {
    var w := Pending(u, committed, lcr, gcDepth, leader);
    if x != c {
      var y :| y in u && y.round < x.round && Edge(x, y) && Reaches(u, y, c);
      assert Reaches(u, y, y);
      assert Reaches(u, x, y);
      ReachesTransitive(u, leader, x, y);
      ReachesRound(u, y, c);
      ReachesRound(u, leader, x);
      assert y in w;
      PendingReachable(u, committed, lcr, gcDepth, leader, y, c);
    }
  }

  // ----- The search does not notice what lies below the horizon -----

  /** Inside `k`, the children in `w` are the children in `v` above the horizon. */
  ghost predicate Restricts(v: set<Certificate>, w: set<Certificate>, k: set<Certificate>, lcr: Round, gcDepth: Round) {
    && SlotUnique(v) && SlotUnique(w)
    && (forall x, p :: x in k && ChildIn(v, x, p) ==> p in k)
    && (forall x, p :: x in k ==> (ChildIn(w, x, p) <==> ChildIn(v, x, p) && lcr <= p.round + gcDepth))
  }

  ghost function MarksAbove(marked: set<Digest>, lcr: Round, gcDepth: Round): set<Digest> {
    set d | d in marked && lcr <= d.round + gcDepth
  }

  lemma FindParentIs(v: set<Certificate>, x: Certificate, d: Digest)
    requires SlotUnique(v) && d in x.parents
    ensures FindParent(v, x, d).Some? ==> ChildIn(v, x, FindParent(v, x, d).value) && FindParent(v, x, d).value.Digest() == d
    ensures forall p :: ChildIn(v, x, p) && p.Digest() == d ==> FindParent(v, x, d) == Some(p)
  {
    forall p | ChildIn(v, x, p) && p.Digest() == d
      ensures FindParent(v, x, d) == Some(p)
    {
      FindParentUnique(v, x, p);
    }
  }

  lemma FindParentRestricted(v: set<Certificate>, w: set<Certificate>, k: set<Certificate>, lcr: Round, gcDepth: Round,
                             x: Certificate, d: Digest)
    requires Restricts(v, w, k, lcr, gcDepth) && x in k && d in x.parents
    ensures FindParent(w, x, d) == if lcr <= d.round + gcDepth then FindParent(v, x, d) else None
    ensures FindParent(v, x, d).Some? ==> FindParent(v, x, d).value.round == d.round
  {
    FindParentIs(v, x, d);
    FindParentIs(w, x, d);
    var a := FindParent(v, x, d);
    var b := FindParent(w, x, d);
    if a.Some? {
      assert a.value.round == d.round;
      assert ChildIn(w, x, a.value) <==> lcr <= d.round + gcDepth;
    }
    if b.Some? {
      assert ChildIn(v, x, b.value);
    }
  }

  lemma {:induction false} PushParentsRestricted(v: set<Certificate>, w: set<Certificate>, k: set<Certificate>,
                                                 lcr: Round, gcDepth: Round, x: Certificate, ds: seq<Digest>,
                                                 stack: seq<Certificate>, marked: set<Digest>)
    requires Restricts(v, w, k, lcr, gcDepth) && x in k
    requires forall d :: d in ds ==> d in x.parents
    ensures var r := PushParents(v, x, ds, stack, marked);
            PushParents(w, x, ds, AboveHorizon(stack, lcr, gcDepth), MarksAbove(marked, lcr, gcDepth))
              == (AboveHorizon(r.0, lcr, gcDepth), MarksAbove(r.1, lcr, gcDepth))
    decreases |ds|
  {
    hide Restricts, FindParent, ChildIn;
    if ds != [] {
      assert ds[0] in ds && forall d :: d in ds[1..] ==> d in ds;
      FindParentRestricted(v, w, k, lcr, gcDepth, x, ds[0]);
      var found := FindParent(v, x, ds[0]);
      if found.None? || ds[0] in marked {
        PushParentsRestricted(v, w, k, lcr, gcDepth, x, ds[1..], stack, marked);
      } else {
        var p := found.value;
        PushParentsRestricted(v, w, k, lcr, gcDepth, x, ds[1..], stack + [p], marked + {ds[0]});
        AboveHorizonConcat(stack, [p], lcr, gcDepth);
        var marks := MarksAbove(marked, lcr, gcDepth);
        assert [p][1..] == [];
        if lcr <= p.round + gcDepth {
          assert AboveHorizon(stack + [p], lcr, gcDepth) == AboveHorizon(stack, lcr, gcDepth) + [p];
          assert ds[0] !in marks;
          assert MarksAbove(marked + {ds[0]}, lcr, gcDepth) == marks + {ds[0]};
        } else {
          assert MarksAbove(marked + {ds[0]}, lcr, gcDepth) == marks;
          assert AboveHorizon(stack + [p], lcr, gcDepth) == AboveHorizon(stack, lcr, gcDepth);
        }
      }
    }
  }

  /** Nothing above the horizon is pushed from below it. */
  lemma {:induction false} NothingFromBelow(w: set<Certificate>, x: Certificate, ds: seq<Digest>,
                                            stack: seq<Certificate>, marked: set<Digest>)
    requires SlotUnique(w) && (forall p :: !ChildIn(w, x, p)) && forall d :: d in ds ==> d in x.parents
    ensures PushParents(w, x, ds, stack, marked) == (stack, marked)
    decreases |ds|
  {
    if ds != [] {
      assert ds[0] in ds && forall d :: d in ds[1..] ==> d in ds;
      FindParentIs(w, x, ds[0]);
      NothingFromBelow(w, x, ds[1..], stack, marked);
    }
  }

  lemma NoChildBelow(v: set<Certificate>, w: set<Certificate>, k: set<Certificate>, lcr: Round, gcDepth: Round, x: Certificate)
    requires Restricts(v, w, k, lcr, gcDepth) && x in k && x.round + gcDepth < lcr
    ensures SlotUnique(w) && forall p :: !ChildIn(w, x, p)
  {
  }

  ghost predicate AllIn(xs: seq<Certificate>, k: set<Certificate>) {
    forall x :: x in xs ==> x in k
  }

  lemma StackStaysIn(v: set<Certificate>, w: set<Certificate>, k: set<Certificate>, lcr: Round, gcDepth: Round,
                     x: Certificate, below: seq<Certificate>, marked: set<Digest>)
    requires Restricts(v, w, k, lcr, gcDepth) && x in k && AllIn(below, k)
    ensures AllIn(PushParents(v, x, x.parents, below, marked).0, k)
  {
    var pushed := PushParentsAdds(v, x, x.parents, below, marked);
  }

  lemma DfsUnfold(v: set<Certificate>, below: seq<Certificate>, x: Certificate, marked: set<Digest>)
    ensures var r := PushParents(v, x, x.parents, below, marked);
            Dfs(v, below + [x], marked) == [x] + Dfs(v, r.0, r.1)
  {
    hide PushParents, Unmarked;
    var stack := below + [x];
    assert stack[..|stack| - 1] == below && stack[|stack| - 1] == x;
  }

  lemma HorizonOfOne(below: seq<Certificate>, x: Certificate, rest: seq<Certificate>, lcr: Round, gcDepth: Round)
    ensures var one := if lcr <= x.round + gcDepth then [x] else [];
            && AboveHorizon(below + [x], lcr, gcDepth) == AboveHorizon(below, lcr, gcDepth) + one
            && AboveHorizon([x] + rest, lcr, gcDepth) == one + AboveHorizon(rest, lcr, gcDepth)
  {
    AboveHorizonConcat(below, [x], lcr, gcDepth);
    AboveHorizonConcat([x], rest, lcr, gcDepth);
    assert [x][1..] == [];
  }

  /** Cutting the visited sequence at the horizon gives the search of the DAG cut at the horizon, in the same order. */
  lemma {:induction false} DfsRestricted(v: set<Certificate>, w: set<Certificate>, k: set<Certificate>,
                                         lcr: Round, gcDepth: Round, stack: seq<Certificate>, marked: set<Digest>)
    requires Restricts(v, w, k, lcr, gcDepth) && AllIn(stack, k)
    ensures AboveHorizon(Dfs(v, stack, marked), lcr, gcDepth)
            == Dfs(w, AboveHorizon(stack, lcr, gcDepth), MarksAbove(marked, lcr, gcDepth))
    decreases |Unmarked(v, marked)|, |stack|
  {
    hide Restricts, PushParents, ChildIn, MarksAbove, Unmarked;
    if stack != [] {
      hide Dfs, AboveHorizon;
      var x := stack[|stack| - 1];
      var below := stack[..|stack| - 1];
      assert stack == below + [x] && x in stack;
      assert forall c :: c in below ==> c in stack;
      var r := PushParents(v, x, x.parents, below, marked);
      StackStaysIn(v, w, k, lcr, gcDepth, x, below, marked);
      DfsRestricted(v, w, k, lcr, gcDepth, r.0, r.1);
      PushParentsRestricted(v, w, k, lcr, gcDepth, x, x.parents, below, marked);
      var marks := MarksAbove(marked, lcr, gcDepth);
      var cut := AboveHorizon(below, lcr, gcDepth);
      DfsUnfold(v, below, x, marked);
      HorizonOfOne(below, x, Dfs(v, r.0, r.1), lcr, gcDepth);
      if lcr <= x.round + gcDepth {
        DfsUnfold(w, cut, x, marks);
      } else {
        NoChildBelow(v, w, k, lcr, gcDepth, x);
        NothingFromBelow(w, x, x.parents, cut, marks);
        assert cut + [] == cut;
      }
    }
  }

  // ----- The output of one leader -----

  /** The flattened sub-DAG of `leader`, from what was committed before and the DAG of all certificates alone. */
  ghost function SubDag(u: set<Certificate>, committed: set<Certificate>, lcr: Round, gcDepth: Round,
                        leader: Certificate): seq<Certificate> {
    SortByRound(Dfs(Pending(u, committed, lcr, gcDepth, leader), [leader], {}))
  }

  /**
   * Memory still holds every uncommitted ancestor of `leader` above the horizon, and the search from it runs into no
   * committed certificate.
   */
  ghost predicate Intact(u: set<Certificate>, committed: set<Certificate>, s: State, gcDepth: Round, leader: Certificate) {
    && Pending(u, committed, s.lastCommittedRound, gcDepth, leader) <= s.dag
    && !ReachesStale(s, leader, gcDepth, committed)
  }

  lemma {:induction false} ReachesMonotone(v: set<Certificate>, w: set<Certificate>, a: Certificate, b: Certificate)
    requires v <= w && Reaches(v, a, b)
    ensures Reaches(w, a, b)
    decreases a.round
  {
    if a != b {
      var y :| y in v && y.round < a.round && Edge(a, y) && Reaches(v, y, b);
      ReachesMonotone(v, w, y, b);
    }
  }

  /** A certificate at its author's last committed round is the committed one. */
  lemma PendingNotSkipped(cm: Committee, gcDepth: Round, u: set<Certificate>, delivered: set<Certificate>,
                          committed: set<Certificate>, s: State, x: Certificate)
    requires Inv(cm, gcDepth, u, delivered, committed, s) && x in s.dag && x !in committed
    ensures x in Visible(s)
  {
    InvBasics(cm, gcDepth, u, delivered, committed, s);
    GoodUnique(cm, u);
    AuthorInCommittee(cm, u, x);
    var y :| y in committed && y.author == x.author && y.round == s.lastCommitted[x.author];
    assert SameSlot(x, y) ==> x == y;
  }

  /** What the search reaches in an intact memory, above the horizon, is pending. */
  lemma ReachedIsPending(cm: Committee, gcDepth: Round, u: set<Certificate>, delivered: set<Certificate>,
                         committed: set<Certificate>, s: State, leader: Certificate, x: Certificate)
    requires Inv(cm, gcDepth, u, delivered, committed, s) && !ReachesStale(s, leader, gcDepth, committed)
    requires x != leader && Reaches(Visible(s), leader, x) && s.lastCommittedRound <= x.round + gcDepth
    ensures x in Pending(u, committed, s.lastCommittedRound, gcDepth, leader)
  {
    InvBasics(cm, gcDepth, u, delivered, committed, s);
    ReachesRound(Visible(s), leader, x);
    ReachesMonotone(Visible(s), u, leader, x);
  }

  lemma MemoryRestricts(cm: Committee, gcDepth: Round, u: set<Certificate>, delivered: set<Certificate>,
                        committed: set<Certificate>, s: State, leader: Certificate) returns (k: set<Certificate>)
    requires Inv(cm, gcDepth, u, delivered, committed, s) && leader in delivered
    requires Intact(u, committed, s, gcDepth, leader)
    ensures leader in k
    ensures Restricts(Visible(s), Pending(u, committed, s.lastCommittedRound, gcDepth, leader), k, s.lastCommittedRound, gcDepth)
  {
    hide Inv, GoodDag, Reaches, ReachesStale;
    var v := Visible(s);
    var w := Pending(u, committed, s.lastCommittedRound, gcDepth, leader);
    InvBasics(cm, gcDepth, u, delivered, committed, s);
    GoodUnique(cm, u);
    k := set x | x in v + {leader} && Reaches(v, leader, x);
    SelfReached(v, leader);
    assert SlotUnique(v) && SlotUnique(w);
    forall x, p | x in k && ChildIn(v, x, p)
      ensures p in k && p != leader && Reaches(v, leader, p)
    {
      StepReached(v, leader, x, p);
    }
    forall x, p | x in k
      ensures ChildIn(w, x, p) <==> ChildIn(v, x, p) && s.lastCommittedRound <= p.round + gcDepth
    {
      if ChildIn(w, x, p) {
        PendingNotSkipped(cm, gcDepth, u, delivered, committed, s, p);
      }
      if ChildIn(v, x, p) && s.lastCommittedRound <= p.round + gcDepth {
        ReachedIsPending(cm, gcDepth, u, delivered, committed, s, leader, p);
      }
    }
  }

  lemma SelfReached(v: set<Certificate>, x: Certificate)
    ensures Reaches(v, x, x)
  {
  }

  lemma StepReached(v: set<Certificate>, leader: Certificate, x: Certificate, p: Certificate)
    requires Reaches(v, leader, x) && ChildIn(v, x, p)
    ensures p in v && p != leader && Reaches(v, leader, p)
  {
    assert Reaches(v, p, p);
    assert Reaches(v, x, p);
    ReachesRound(v, leader, x);
    ReachesTransitive(v, leader, x, p);
  }

  /** From an intact memory a commit outputs its sub-DAG in an order all nodes share. */
  lemma OrderDagIsSubDag(cm: Committee, gcDepth: Round, u: set<Certificate>, delivered: set<Certificate>,
                         committed: set<Certificate>, s: State, leader: Certificate)
    requires Inv(cm, gcDepth, u, delivered, committed, s) && leader in delivered
    requires Intact(u, committed, s, gcDepth, leader) && s.lastCommittedRound < leader.round
    ensures OrderDag(s, leader, gcDepth) == SubDag(u, committed, s.lastCommittedRound, gcDepth, leader)
  {
    var lcr := s.lastCommittedRound;
    var w := Pending(u, committed, lcr, gcDepth, leader);
    var k := MemoryRestricts(cm, gcDepth, u, delivered, committed, s, leader);
    DfsRestricted(Visible(s), w, k, lcr, gcDepth, [leader], {});
    assert AboveHorizon([leader], lcr, gcDepth) == [leader];
    assert MarksAbove({}, lcr, gcDepth) == {};
  }

  /**
   * Exactly when a commit loses nothing and repeats nothing: it outputs the uncommitted ancestors-or-self above the
   * horizon if and only if memory is intact.
   */
  lemma CommitsPendingExactly(cm: Committee, gcDepth: Round, u: set<Certificate>, delivered: set<Certificate>,
                              committed: set<Certificate>, s: State, leader: Certificate)
    requires Inv(cm, gcDepth, u, delivered, committed, s) && Closed(u, committed, s.lastCommittedRound, gcDepth)
    requires leader in delivered && s.lastCommittedRound < leader.round
    ensures Members(OrderDag(s, leader, gcDepth)) == Pending(u, committed, s.lastCommittedRound, gcDepth, leader) + {leader}
            <==> Intact(u, committed, s, gcDepth, leader)
  {
    hide Inv, Closed, GoodDag, OrderDag, SubDag, Layered;
    var lcr := s.lastCommittedRound;
    var w, xs := Pending(u, committed, lcr, gcDepth, leader), OrderDag(s, leader, gcDepth);
    InvBasics(cm, gcDepth, u, delivered, committed, s);
    if Intact(u, committed, s, gcDepth, leader) {
      OrderDagIsSubDag(cm, gcDepth, u, delivered, committed, s, leader);
      SubDagElements(cm, gcDepth, u, committed, lcr, leader);
    } else if Members(xs) == w + {leader} {
      OrderDagMeets(cm, gcDepth, u, delivered, committed, s, leader, committed);
      LeaderIsNew(cm, gcDepth, u, delivered, committed, s, leader);
      VisibleLayered(cm, gcDepth, u, delivered, committed, s, leader);
      OrderDagExact(s, leader, gcDepth);
      forall x | x in w
        ensures x in s.dag
      {
        assert x in xs;
        ReachesRound(Visible(s), leader, x);
      }
    }
  }

  lemma LeaderIsNew(cm: Committee, gcDepth: Round, u: set<Certificate>, delivered: set<Certificate>,
                    committed: set<Certificate>, s: State, leader: Certificate)
    requires Inv(cm, gcDepth, u, delivered, committed, s) && s.lastCommittedRound < leader.round
    ensures leader !in committed
  {
    if leader in committed {
      CommittedBound(cm, committed, s, leader);
    }
  }

  /** In a tight memory nothing stale can be run into: what matters is whether the pending certificates are still there. */
  lemma LosesNothingExactly(cm: Committee, gcDepth: Round, u: set<Certificate>, delivered: set<Certificate>,
                            committed: set<Certificate>, s: State, leader: Certificate)
    requires Inv(cm, gcDepth, u, delivered, committed, s) && Closed(u, committed, s.lastCommittedRound, gcDepth)
    requires Tight(committed, s) && leader in delivered && s.lastCommittedRound < leader.round
    ensures Members(OrderDag(s, leader, gcDepth)) == Pending(u, committed, s.lastCommittedRound, gcDepth, leader) + {leader}
            <==> Pending(u, committed, s.lastCommittedRound, gcDepth, leader) <= s.dag
  {
    hide Inv, Closed, OrderDag, Pending, Reaches;
    CommitsPendingExactly(cm, gcDepth, u, delivered, committed, s, leader);
  }

  /** Under the own-history hypothesis a tight memory is always intact. */
  lemma OwnHistoryIntact(cm: Committee, gcDepth: Round, u: set<Certificate>, delivered: set<Certificate>,
                         committed: set<Certificate>, s: State, leader: Certificate)
    requires Inv(cm, gcDepth, u, delivered, committed, s) && Tight(committed, s) && leader in delivered
    requires OwnHistory(u) && Closed(u, committed, s.lastCommittedRound, gcDepth)
    ensures Intact(u, committed, s, gcDepth, leader)
  {
    forall x | x in Pending(u, committed, s.lastCommittedRound, gcDepth, leader)
      ensures x in s.dag
    {
      PendingIsVisible(cm, gcDepth, u, delivered, committed, s, leader, x);
    }
  }

  lemma SubDagElements(cm: Committee, gcDepth: Round, u: set<Certificate>, committed: set<Certificate>, lcr: Round,
                       leader: Certificate)
    requires GoodDag(cm, u) && leader in u && Closed(u, committed, lcr, gcDepth)
    ensures Members(SubDag(u, committed, lcr, gcDepth, leader)) == Pending(u, committed, lcr, gcDepth, leader) + {leader}
    ensures NoRepeats(SubDag(u, committed, lcr, gcDepth, leader)) && ByRound(SubDag(u, committed, lcr, gcDepth, leader))
  {
    var w := Pending(u, committed, lcr, gcDepth, leader);
    forall x, y | x in w + {leader} && y in w && Edge(x, y)
      ensures y.round + 1 == x.round
    {
      EdgeRound(cm, u, x, y);
    }
    DfsVisits(w, leader);
    var xs := Dfs(w, [leader], {});
    SortByRoundSorts(xs);
    SameElements(xs, SortByRound(xs));
    assert Reaches(u, leader, leader);
    forall c
      ensures c in xs <==> c in w + {leader}
    {
      if c in w {
        PendingReachable(u, committed, lcr, gcDepth, leader, leader, c);
      } else if c in xs {
        ReachesRound(w, leader, c);
      }
    }
  }

  // ----- Runs -----

  lemma PendingCloses(u: set<Certificate>, committed: set<Certificate>, lcr: Round, gcDepth: Round, leader: Certificate)
    requires Closed(u, committed, lcr, gcDepth) && leader in u && lcr < leader.round
    ensures Closed(u, committed + (Pending(u, committed, lcr, gcDepth, leader) + {leader}), leader.round, gcDepth)
  {
    var w := Pending(u, committed, lcr, gcDepth, leader);
    forall c, a | c in committed + (w + {leader}) && a in u && Reaches(u, c, a) && leader.round <= a.round + gcDepth
      ensures a in committed + (w + {leader})
    {
      if c !in committed {
        assert Reaches(u, leader, leader);
        ReachesTransitive(u, leader, c, a);
      }
    }
  }

  ghost function Rounds(xs: seq<Certificate>): set<Round> {
    set x | x in xs :: x.round
  }

  lemma TopCommitted(cm: Committee, committed: set<Certificate>, s: State) returns (c: Certificate)
    requires cm.Valid() && Accounted(cm, committed, s)
    ensures c in committed && c.round == s.lastCommittedRound
    ensures forall x :: x in committed ==> x.round <= s.lastCommittedRound
  {
    assert cm.keys[0] in s.lastCommitted.Keys;
    assert s.lastCommitted[cm.keys[0]] in s.lastCommitted.Values;
    var k :| k in s.lastCommitted && s.lastCommitted[k] == s.lastCommittedRound;
    c :| c in committed && c.author == k && c.round == s.lastCommitted[k];
    forall x | x in committed
      ensures x.round <= s.lastCommittedRound
    {
      CommittedBound(cm, committed, s, x);
    }
  }

  /** The last committed round is the highest round output so far. */
  lemma RoundOfOutput(cm: Committee, s: State, out: seq<Certificate>)
    requires cm.Valid() && Accounted(cm, Genesis(cm) + Members(out), s)
    ensures s.lastCommittedRound == MaxOf(Rounds(out))
  {
    hide Accounted, Committee.Valid;
    var c := TopCommitted(cm, Genesis(cm) + Members(out), s);
    assert forall x :: x in out ==> x in Members(out);
    assert forall r :: r in Rounds(out) ==> r <= s.lastCommittedRound;
    if c in out {
      assert c.round in Rounds(out);
    }
  }

  /** What a sequence of leaders outputs after `out`: a function of the leaders and the DAG of all certificates. */
  ghost function Outputs(cfg: Config, u: set<Certificate>, out: seq<Certificate>, leaders: seq<Certificate>): seq<Certificate>
    decreases |leaders|
  {
    if leaders == [] then out
    else
      var sub := SubDag(u, Genesis(cfg.committee) + Members(out), MaxOf(Rounds(out)), cfg.gcDepth, leaders[0]);
      Outputs(cfg, u, out + sub, leaders[1..])
  }

  lemma {:induction false} OutputsConcat(cfg: Config, u: set<Certificate>, out: seq<Certificate>,
                                         a: seq<Certificate>, b: seq<Certificate>)
    ensures Outputs(cfg, u, out, a + b) == Outputs(cfg, u, Outputs(cfg, u, out, a), b)
    ensures out <= Outputs(cfg, u, out, a)
    decreases |a|
  {
    if a == [] {
      assert a + b == b;
    } else {
      var sub := SubDag(u, Genesis(cfg.committee) + Members(out), MaxOf(Rounds(out)), cfg.gcDepth, a[0]);
      assert (a + b)[1..] == a[1..] + b && (a + b)[0] == a[0];
      OutputsConcat(cfg, u, out + sub, a[1..], b);
    }
  }

  lemma {:induction false} ReversedSplit<T>(xs: seq<T>, ys: seq<T>)
    ensures Reversed(xs + ys) == Reversed(ys) + Reversed(xs)
    ensures |Reversed(xs)| == |xs|
    decreases |xs|
  {
    if xs == [] {
      assert xs + ys == ys;
    } else {
      assert (xs + ys)[1..] == xs[1..] + ys;
      ReversedSplit(xs[1..], ys);
    }
  }

  lemma ReversedLast<T>(xs: seq<T>)
    requires xs != []
    ensures Reversed(xs) == [xs[|xs| - 1]] + Reversed(xs[..|xs| - 1])
  {
    var last := xs[|xs| - 1];
    assert xs == xs[..|xs| - 1] + [last];
    ReversedSplit(xs[..|xs| - 1], [last]);
    assert Reversed([last]) == [last];
  }

  /** The state of a node that committed exactly `out`, with whatever that descends from above the horizon. */
  ghost predicate Settled(cfg: Config, u: set<Certificate>, delivered: set<Certificate>, out: seq<Certificate>, s: State) {
    var committed := Genesis(cfg.committee) + Members(out);
    && Inv(cfg.committee, cfg.gcDepth, u, delivered, committed, s)
    && Closed(u, committed, s.lastCommittedRound, cfg.gcDepth)
  }

  ghost function NextSubDag(cfg: Config, u: set<Certificate>, out: seq<Certificate>, leader: Certificate): seq<Certificate> {
    SubDag(u, Genesis(cfg.committee) + Members(out), MaxOf(Rounds(out)), cfg.gcDepth, leader)
  }

  /** Memory is intact for each leader of a commit in turn, oldest first. */
  ghost predicate IntactCommit(cfg: Config, u: set<Certificate>, out: seq<Certificate>, s: State, ls: seq<Certificate>)
    decreases |ls|
  {
    ls == [] ||
    var leader := ls[|ls| - 1];
    && Intact(u, Genesis(cfg.committee) + Members(out), s, cfg.gcDepth, leader)
    && IntactCommit(cfg, u, out + OrderDag(s, leader, cfg.gcDepth), CommitOne(s, leader, cfg.gcDepth), ls[..|ls| - 1])
  }

  lemma CommitOneSettled(cfg: Config, u: set<Certificate>, delivered: set<Certificate>, out: seq<Certificate>,
                         s: State, leader: Certificate)
    requires Settled(cfg, u, delivered, out, s) && leader in delivered && s.lastCommittedRound < leader.round
    requires Intact(u, Genesis(cfg.committee) + Members(out), s, cfg.gcDepth, leader)
    ensures OrderDag(s, leader, cfg.gcDepth) == NextSubDag(cfg, u, out, leader)
    ensures Settled(cfg, u, delivered, out + OrderDag(s, leader, cfg.gcDepth), CommitOne(s, leader, cfg.gcDepth))
    ensures CommitOne(s, leader, cfg.gcDepth).lastCommittedRound == leader.round
  {
    hide Inv, Closed, Tight, OrderDag, SubDag, CommitOne, MaxOf, Accounted, Intact, GoodDag;
    var committed := Genesis(cfg.committee) + Members(out);
    var xs := OrderDag(s, leader, cfg.gcDepth);
    InvBasics(cfg.committee, cfg.gcDepth, u, delivered, committed, s);
    InvAccounted(cfg.committee, cfg.gcDepth, u, delivered, committed, s);
    RoundOfOutput(cfg.committee, s, out);
    OrderDagIsSubDag(cfg.committee, cfg.gcDepth, u, delivered, committed, s, leader);
    CommitsPendingExactly(cfg.committee, cfg.gcDepth, u, delivered, committed, s, leader);
    PendingCloses(u, committed, s.lastCommittedRound, cfg.gcDepth, leader);
    InvCommitOne(cfg.committee, cfg.gcDepth, u, delivered, committed, s, leader);
    ElementsConcat(out, xs);
    assert committed + Members(xs) == Genesis(cfg.committee) + Members(out + xs);
  }

  // ----- Sequences that have parted -----

  /** Two sequences differ where both are defined, so neither can ever become a prefix of the other. */
  ghost predicate Apart(a: seq<Certificate>, b: seq<Certificate>) {
    exists k :: 0 <= k < |a| && k < |b| && a[k] != b[k]
  }

  lemma ApartExtends(p: seq<Certificate>, a: seq<Certificate>, b: seq<Certificate>, c: seq<Certificate>, d: seq<Certificate>)
    requires Apart(a, b)
    ensures Apart(p + a + c, p + b + d)
  {
    var k :| 0 <= k < |a| && k < |b| && a[k] != b[k];
    assert (p + a + c)[|p| + k] != (p + b + d)[|p| + k];
  }

  lemma ApartGrows(a: seq<Certificate>, b: seq<Certificate>, c: seq<Certificate>, d: seq<Certificate>)
    requires Apart(a, b) && a <= c && b <= d
    ensures Apart(c, d)
  {
    var k :| 0 <= k < |a| && k < |b| && a[k] != b[k];
    assert c[k] != d[k];
  }

  /** `leader` comes last and only last. */
  ghost predicate EndsWith(xs: seq<Certificate>, leader: Certificate) {
    xs != [] && forall i :: 0 <= i < |xs| ==> (xs[i] == leader <==> i == |xs| - 1)
  }

  lemma LeaderLast(xs: seq<Certificate>, leader: Certificate)
    requires ByRound(xs) && NoRepeats(xs) && leader in xs && forall x :: x in xs && x != leader ==> x.round < leader.round
    ensures EndsWith(xs, leader)
  {
    var n := |xs| - 1;
    var i :| 0 <= i < |xs| && xs[i] == leader;
    var last := xs[n];
    assert last in xs;
    assert i < n ==> leader.round <= last.round;
  }

  lemma AgreeingEnds(xs: seq<Certificate>, ys: seq<Certificate>, leader: Certificate)
    requires EndsWith(xs, leader) && EndsWith(ys, leader)
    ensures Apart(xs, ys) || xs == ys
  {
    if !Apart(xs, ys) {
      var n := if |xs| <= |ys| then |xs| else |ys|;
      assert forall k :: 0 <= k < n ==> xs[k] == ys[k];
      assert xs[n - 1] == ys[n - 1];
    }
  }

  lemma DifferentEnds(xs: seq<Certificate>, ys: seq<Certificate>, leader: Certificate)
    requires EndsWith(xs, leader) && EndsWith(ys, leader) && Members(xs) != Members(ys)
    ensures Apart(xs, ys)
  {
    AgreeingEnds(xs, ys, leader);
  }

  /** A commit from a memory that is not intact outputs something else than its sub-DAG, for good. */
  lemma CommitOneParts(cfg: Config, u: set<Certificate>, delivered: set<Certificate>, out: seq<Certificate>,
                       s: State, leader: Certificate)
    requires Settled(cfg, u, delivered, out, s) && leader in delivered && s.lastCommittedRound < leader.round
    requires !Intact(u, Genesis(cfg.committee) + Members(out), s, cfg.gcDepth, leader)
    ensures Apart(OrderDag(s, leader, cfg.gcDepth), NextSubDag(cfg, u, out, leader))
  {
    hide Inv, Closed, OrderDag, SubDag, MaxOf, Accounted, Intact, Apart, GoodDag, Layered;
    var committed := Genesis(cfg.committee) + Members(out);
    var lcr, gcDepth := s.lastCommittedRound, cfg.gcDepth;
    var xs, ys := OrderDag(s, leader, gcDepth), NextSubDag(cfg, u, out, leader);
    InvBasics(cfg.committee, gcDepth, u, delivered, committed, s);
    InvAccounted(cfg.committee, gcDepth, u, delivered, committed, s);
    RoundOfOutput(cfg.committee, s, out);
    CommitsPendingExactly(cfg.committee, gcDepth, u, delivered, committed, s, leader);
    SubDagElements(cfg.committee, gcDepth, u, committed, lcr, leader);
    OrderDagBounds(cfg.committee, gcDepth, u, delivered, committed, s, leader);
    VisibleLayered(cfg.committee, gcDepth, u, delivered, committed, s, leader);
    OrderDagExact(s, leader, gcDepth);
    forall x | x in xs && x != leader
      ensures x.round < leader.round
    {
      ReachesRound(Visible(s), leader, x);
    }
    forall y | y in ys && y != leader
      ensures y.round < leader.round
    {
      assert y in Members(ys);
      ReachesRound(u, leader, y);
    }
    assert leader in Members(ys);
    LeaderLast(xs, leader);
    LeaderLast(ys, leader);
    DifferentEnds(xs, ys, leader);
  }

  // ----- Whole commits and runs -----

  lemma CommitParts(cfg: Config, u: set<Certificate>, delivered: set<Certificate>,
                    out: seq<Certificate>, s: State, leader: Certificate, more: seq<Certificate>, leaders: seq<Certificate>)
    requires Settled(cfg, u, delivered, out, s) && leader in delivered && s.lastCommittedRound < leader.round
    requires !Intact(u, Genesis(cfg.committee) + Members(out), s, cfg.gcDepth, leader)
    requires leaders != [] && leaders[0] == leader
    ensures Apart(out + (OrderDag(s, leader, cfg.gcDepth) + more), Outputs(cfg, u, out, leaders))
  {
    hide Settled, OrderDag, Intact, Apart, NextSubDag, Outputs;
    var xs, ys := OrderDag(s, leader, cfg.gcDepth), NextSubDag(cfg, u, out, leader);
    CommitOneParts(cfg, u, delivered, out, s, leader);
    OutputsUnfold(cfg, u, out, leaders);
    OutputsConcat(cfg, u, out + ys, leaders[1..], []);
    var whole := Outputs(cfg, u, out + ys, leaders[1..]);
    var tail := whole[|out + ys|..];
    assert whole == out + ys + tail;
    ApartExtends(out, xs, ys, more, tail);
    assert out + xs + more == out + (xs + more);
  }

  /** A commit outputs what its leaders determine exactly if memory is intact for each of them. */
  lemma {:induction false} CommitLeadersExactly(cfg: Config, u: set<Certificate>, delivered: set<Certificate>,
                                                out: seq<Certificate>, s: State, ls: seq<Certificate>)
    requires Settled(cfg, u, delivered, out, s) && Committable(delivered, s, ls)
    ensures var r := CommitLeaders(s, ls, cfg.gcDepth);
            if IntactCommit(cfg, u, out, s, ls)
            then out + r.1 == Outputs(cfg, u, out, Reversed(ls)) && Settled(cfg, u, delivered, out + r.1, r.0)
            else Apart(out + r.1, Outputs(cfg, u, out, Reversed(ls)))
    decreases |ls|
  {
    hide Settled, OrderDag, CommitOne, Intact, Apart, NextSubDag, Outputs, Reversed, CommitLeaders, Genesis, Members;
    var leader := ls[|ls| - 1];
    var rest := ls[..|ls| - 1];
    assert leader in ls;
    var xs := OrderDag(s, leader, cfg.gcDepth);
    var s1 := CommitOne(s, leader, cfg.gcDepth);
    var more := CommitLeaders(s1, rest, cfg.gcDepth).1;
    CommitLeadersUnfold(s, ls, cfg.gcDepth);
    ReversedLast(ls);
    assert Reversed(ls)[0] == leader && Reversed(ls)[1..] == Reversed(rest);
    if !Intact(u, Genesis(cfg.committee) + Members(out), s, cfg.gcDepth, leader) {
      CommitParts(cfg, u, delivered, out, s, leader, more, Reversed(ls));
    } else {
      CommitOneSettled(cfg, u, delivered, out, s, leader);
      OutputsUnfold(cfg, u, out, Reversed(ls));
      assert out + (xs + more) == out + xs + more;
      if rest == [] {
        NothingToCommit(s1, cfg.gcDepth);
        OutputsOfNone(cfg, u, out + xs);
        IntactNothing(cfg, u, out + xs, s1);
        assert out + xs + more == out + xs;
      } else {
        CommittableRest(delivered, s, ls, s1);
        CommitLeadersExactly(cfg, u, delivered, out + xs, s1, rest);
      }
    }
  }

  lemma OutputsOfNone(cfg: Config, u: set<Certificate>, out: seq<Certificate>)
    ensures Outputs(cfg, u, out, Reversed([])) == out
  {
  }

  lemma OutputsUnfold(cfg: Config, u: set<Certificate>, out: seq<Certificate>, leaders: seq<Certificate>)
    requires leaders != []
    ensures Outputs(cfg, u, out, leaders) == Outputs(cfg, u, out + NextSubDag(cfg, u, out, leaders[0]), leaders[1..])
  {
    hide SubDag;
  }

  /** The node committed what its leaders determine, and nothing is missing from it. */
  ghost predicate Determined(cfg: Config, u: set<Certificate>, delivered: set<Certificate>, n: Node) {
    && Settled(cfg, u, delivered, n.out, n.s)
    && n.out == Outputs(cfg, u, [], n.leaders)
  }

  /** At every commit of the run memory is intact for each leader in turn. */
  ghost predicate IntactRun(cfg: Config, u: set<Certificate>, log: seq<Certificate>)
    requires cfg.committee.Valid()
    decreases |log|
  {
    log == [] ||
    var n := Run(cfg, log[..|log| - 1]);
    var (s, ls) := ToCommit(cfg, n, log[|log| - 1]);
    IntactRun(cfg, u, log[..|log| - 1]) && IntactCommit(cfg, u, n.out, s, ls)
  }

  lemma DeliverExactly(cfg: Config, u: set<Certificate>, delivered: set<Certificate>, n: Node, c: Certificate)
    requires cfg.committee.Valid() && 1 <= cfg.walkStep && Determined(cfg, u, delivered, n)
    requires c in u && forall y :: y in u && Edge(c, y) ==> y in delivered
    ensures var (s, ls) := ToCommit(cfg, n, c); var m := Deliver(cfg, n, c);
            if IntactCommit(cfg, u, n.out, s, ls) then Determined(cfg, u, delivered + {c}, m)
            else Apart(m.out, Outputs(cfg, u, [], m.leaders))
  {
    hide Inv, Tight, Closed, CommitLeaders, Outputs, Committable, Deliver, Decide, LeadersToCommit, Apart, IntactCommit;
    var (s, ls) := ToCommit(cfg, n, c);
    ToCommitSound(cfg, u, delivered, n, c);
    if ls == [] {
      NothingToCommit(s, cfg.gcDepth);
      NothingCommitted(cfg, n, c);
      IntactNothing(cfg, u, n.out, s);
      DeliverSound(cfg, u, delivered, n, c);
      assert n.out + [] == n.out && n.leaders + Reversed(ls) == n.leaders;
    } else {
      CommitLeadersExactly(cfg, u, delivered + {c}, n.out, s, ls);
      OutputsConcat(cfg, u, [], n.leaders, Reversed(ls));
    }
  }

  lemma IntactNothing(cfg: Config, u: set<Certificate>, out: seq<Certificate>, s: State)
    ensures IntactCommit(cfg, u, out, s, [])
  {
  }

  /** Without a commit the node only stores the certificate, and notes a skipped wave. */
  lemma NothingCommitted(cfg: Config, n: Node, c: Certificate)
    requires cfg.committee.Valid() && ToCommit(cfg, n, c).1 == []
    ensures var s := Deliver(cfg, n, c).s;
            s == ToCommit(cfg, n, c).0.(resolved := s.resolved)
  {
    hide Decide, CommitLeaders;
  }

  /**
   * The output of a run is what the leaders it committed determine exactly if memory was intact at every commit; if it
   * once was not, the output has parted from that for good.
   */
  lemma {:induction false} RunDeterminedExactly(cfg: Config, u: set<Certificate>, log: seq<Certificate>)
    requires 1 <= cfg.walkStep && GoodDag(cfg.committee, u) && Causal(cfg.committee, u, log)
    ensures cfg.committee.Valid()
    ensures var n := Run(cfg, log);
            if IntactRun(cfg, u, log) then Determined(cfg, u, Delivered(cfg.committee, log), n)
            else Apart(n.out, Outputs(cfg, u, [], n.leaders))
    decreases |log|
  {
    hide GoodDag, Determined, Apart, IntactCommit, ToCommit, Outputs, Deliver, Sound;
    var cm := cfg.committee;
    GoodUnique(cm, u);
    if log == [] {
      InitiallyDetermined(cfg, u);
    } else {
      var before, c := log[..|log| - 1], log[|log| - 1];
      var n := Run(cfg, before);
      RunDeterminedExactly(cfg, u, before);
      DeliveredStep(cm, log);
      RunSound(cfg, u, before);
      if IntactRun(cfg, u, before) {
        DeliverExactly(cfg, u, Delivered(cm, before), n, c);
      } else {
        ToCommitSound(cfg, u, Delivered(cm, before), n, c);
        OutputsConcat(cfg, u, [], n.leaders, Reversed(ToCommit(cfg, n, c).1));
        OutputsConcat(cfg, u, Outputs(cfg, u, [], n.leaders), Reversed(ToCommit(cfg, n, c).1), []);
        ApartGrows(n.out, Outputs(cfg, u, [], n.leaders), Run(cfg, log).out, Outputs(cfg, u, [], Run(cfg, log).leaders));
      }
    }
  }

  lemma InitiallyDetermined(cfg: Config, u: set<Certificate>)
    requires GoodDag(cfg.committee, u) && cfg.committee.Valid()
    ensures Determined(cfg, u, Delivered(cfg.committee, []), Run(cfg, []))
  {
    var cm := cfg.committee;
    InvInitial(cm, cfg.gcDepth, u);
    assert Delivered(cm, []) == Genesis(cm);
    assert Genesis(cm) + Members([]) == Genesis(cm);
    forall c, a | c in Genesis(cm) && a in u && Reaches(u, c, a)
      ensures a in Genesis(cm)
    {
      ReachesRound(u, c, a);
    }
  }

  lemma ApartDiffers(a: seq<Certificate>, b: seq<Certificate>)
    requires Apart(a, b)
    ensures !(a <= b) && !(b <= a)
  {
  }

  /**
   * Whatever else two nodes received and in whatever order: if the first lost nothing and the second committed at least
   * its leaders, their outputs agree as long as the second lost nothing either. With the same leaders they agree exactly
   * then.
   */
  lemma SameLeadersSameOutput(cfg: Config, u: set<Certificate>, log1: seq<Certificate>, log2: seq<Certificate>)
    requires 1 <= cfg.walkStep && GoodDag(cfg.committee, u) && cfg.committee.Valid()
    requires Causal(cfg.committee, u, log1) && IntactRun(cfg, u, log1)
    requires Causal(cfg.committee, u, log2) && Run(cfg, log1).leaders <= Run(cfg, log2).leaders
    ensures IntactRun(cfg, u, log2) ==> Run(cfg, log1).out <= Run(cfg, log2).out
    ensures Run(cfg, log1).leaders == Run(cfg, log2).leaders ==>
              (Run(cfg, log1).out == Run(cfg, log2).out <==> IntactRun(cfg, u, log2))
  {
    hide Settled, GoodDag, Causal, Outputs, Run, IntactRun, Apart;
    RunDeterminedExactly(cfg, u, log1);
    RunDeterminedExactly(cfg, u, log2);
    var a := Run(cfg, log1).leaders;
    var b := Run(cfg, log2).leaders;
    assert b == a + b[|a|..];
    OutputsConcat(cfg, u, [], a, b[|a|..]);
    OutputsConcat(cfg, u, Outputs(cfg, u, [], a), b[|a|..], []);
    if !IntactRun(cfg, u, log2) {
      ApartDiffers(Run(cfg, log2).out, Outputs(cfg, u, [], b));
    }
  }

  // ----- Certificates that descend from their author's earlier ones -----

  lemma {:induction false} OwnHistoryCommit(cfg: Config, u: set<Certificate>, delivered: set<Certificate>,
                                            out: seq<Certificate>, s: State, ls: seq<Certificate>)
    requires OwnHistory(u) && Settled(cfg, u, delivered, out, s) && Committable(delivered, s, ls)
    requires Tight(Genesis(cfg.committee) + Members(out), s)
    ensures IntactCommit(cfg, u, out, s, ls)
    decreases |ls|
  {
    hide Inv, Closed, Tight, OwnHistory, OrderDag, UpdateAll, Intact;
    var leader, rest := ls[|ls| - 1], ls[..|ls| - 1];
    assert leader in ls;
    var committed := Genesis(cfg.committee) + Members(out);
    var s1, out1 := CommitOne(s, leader, cfg.gcDepth), out + OrderDag(s, leader, cfg.gcDepth);
    OwnHistoryIntact(cfg.committee, cfg.gcDepth, u, delivered, committed, s, leader);
    if rest != [] {
      CommitOneSettled(cfg, u, delivered, out, s, leader);
      InvCommitOne(cfg.committee, cfg.gcDepth, u, delivered, committed, s, leader);
      ElementsConcat(out, OrderDag(s, leader, cfg.gcDepth));
      assert committed + Members(OrderDag(s, leader, cfg.gcDepth)) == Genesis(cfg.committee) + Members(out1);
      CommittableRest(delivered, s, ls, s1);
      OwnHistoryCommit(cfg, u, delivered, out1, s1, rest);
    }
  }

  /** If every certificate descends from its author's earlier ones and nothing stale is redelivered, nothing is ever lost. */
  lemma {:induction false} OwnHistoryRun(cfg: Config, u: set<Certificate>, log: seq<Certificate>)
    requires 1 <= cfg.walkStep && GoodDag(cfg.committee, u) && OwnHistory(u) && cfg.committee.Valid()
    requires Causal(cfg.committee, u, log) && NeverStale(cfg, log)
    ensures IntactRun(cfg, u, log)
    decreases |log|
  {
    hide GoodDag, OwnHistory, Settled, IntactCommit, ToCommit, Inv, Tight, Apart, Outputs;
    if log != [] {
      var before, c := log[..|log| - 1], log[|log| - 1];
      var cm, n := cfg.committee, Run(cfg, before);
      OwnHistoryRun(cfg, u, before);
      RunDeterminedExactly(cfg, u, before);
      RunFresh(cfg, u, before);
      RunSound(cfg, u, before);
      OwnHistoryDelivery(cfg, u, Delivered(cm, before), n, c);
    }
  }

  lemma OwnHistoryDelivery(cfg: Config, u: set<Certificate>, delivered: set<Certificate>, n: Node, c: Certificate)
    requires cfg.committee.Valid() && 1 <= cfg.walkStep && Settled(cfg, u, delivered, n.out, n.s) && Fresh(cfg, n)
    requires OwnHistory(u) && NotStale(cfg, n, c)
    requires c in u && forall y :: y in u && Edge(c, y) ==> y in delivered
    ensures var (s, ls) := ToCommit(cfg, n, c); IntactCommit(cfg, u, n.out, s, ls)
  {
    hide OwnHistory, IntactCommit, ToCommit, Inv, Tight, Closed, Committable;
    var (s, ls) := ToCommit(cfg, n, c);
    var committed := Genesis(cfg.committee) + Members(n.out);
    ToCommitSound(cfg, u, delivered, n, c);
    InvBasics(cfg.committee, cfg.gcDepth, u, delivered, committed, n.s);
    InvInsert(cfg.committee, cfg.gcDepth, u, delivered, committed, n.s, c);
    if ls == [] {
      IntactNothing(cfg, u, n.out, s);
    } else {
      OwnHistoryCommit(cfg, u, delivered + {c}, n.out, s, ls);
    }
  }

  /** A run from which nothing is missing repeats nothing either. */
  lemma {:induction false} IntactRepeatsNothing(cfg: Config, u: set<Certificate>, log: seq<Certificate>)
    requires 1 <= cfg.walkStep && GoodDag(cfg.committee, u) && cfg.committee.Valid()
    requires Causal(cfg.committee, u, log) && IntactRun(cfg, u, log)
    ensures NeverReachesStale(cfg, log) && NoRepeats(Run(cfg, log).out)
    decreases |log|
  {
    hide GoodDag, ToCommit, ReachesStale, Pending;
    NoDoubleCommitExactly(cfg, u, log);
    if log != [] {
      var n := Run(cfg, log[..|log| - 1]);
      var (s, ls) := ToCommit(cfg, n, log[|log| - 1]);
      IntactRepeatsNothing(cfg, u, log[..|log| - 1]);
      if ls != [] && ReachesStale(s, ls[|ls| - 1], cfg.gcDepth, Members(n.out)) {
        StaleMonotone(s, ls[|ls| - 1], cfg.gcDepth, Members(n.out), Genesis(cfg.committee) + Members(n.out));
      }
    }
  }

  lemma StaleMonotone(s: State, leader: Certificate, gcDepth: Round, few: set<Certificate>, more: set<Certificate>)
    requires few <= more && ReachesStale(s, leader, gcDepth, few)
    ensures ReachesStale(s, leader, gcDepth, more)
  {
  }
}
