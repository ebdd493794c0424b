/** What the pruned in-memory DAG still holds: enough that no look-up of the engine can tell it from the full one. */
module Retention {
  import opened Collections
  import opened Committees
  import opened Dags
  import opened Engine

  /** `delivered` is closed under ancestors in the DAG `u` of all certificates of the system. */
  ghost predicate History(cm: Committee, u: set<Certificate>, delivered: set<Certificate>) {
    && GoodDag(cm, u)
    && delivered <= u
    && Genesis(cm) <= delivered
    && AncestorClosed(u, delivered)
  }

  /** `lastCommitted` records, for each authority, the highest round at which it has a committed certificate. */
  ghost predicate Accounted(cm: Committee, committed: set<Certificate>, s: State) {
    && s.lastCommitted.Keys == (set k | k in cm.keys)
    && s.lastCommittedRound == MaxOf(s.lastCommitted.Values)
    && (forall c :: c in committed ==> c.author in s.lastCommitted && c.round <= s.lastCommitted[c.author])
    && (forall k :: k in s.lastCommitted ==> exists c :: c in committed && c.author == k && c.round == s.lastCommitted[k])
  }

  /** The DAG in memory lost only what clean-up may drop. */
  ghost predicate Retained(delivered: set<Certificate>, gcDepth: Round, s: State) {
    && s.dag <= delivered
    && (forall c :: c in delivered && Kept(s.lastCommitted, s.lastCommittedRound, gcDepth, c) ==> c in s.dag)
  }

  /** The invariant of every reachable state, in the middle of a commit as well. Genesis counts as committed. */
  ghost predicate Inv(cm: Committee, gcDepth: Round, u: set<Certificate>, delivered: set<Certificate>,
                      committed: set<Certificate>, s: State) {
    && History(cm, u, delivered)
    && Genesis(cm) <= committed <= delivered
    && Accounted(cm, committed, s)
    && Retained(delivered, gcDepth, s)
  }

  /** A committed certificate still in memory sits exactly at its author's last committed round. */
  ghost predicate Tight(committed: set<Certificate>, s: State) {
    forall c :: c in committed && c in s.dag ==> c.author in s.lastCommitted && c.round == s.lastCommitted[c.author]
  }

  lemma InvBasics(cm: Committee, gcDepth: Round, u: set<Certificate>, delivered: set<Certificate>,
                  committed: set<Certificate>, s: State)
    requires Inv(cm, gcDepth, u, delivered, committed, s)
    ensures GoodDag(cm, u) && cm.Valid()
    ensures committed <= delivered <= u && s.dag <= delivered
  {
  }

  lemma InvAccounted(cm: Committee, gcDepth: Round, u: set<Certificate>, delivered: set<Certificate>,
                     committed: set<Certificate>, s: State)
    requires Inv(cm, gcDepth, u, delivered, committed, s)
    ensures Accounted(cm, committed, s)
  {
  }

  lemma CommittedBound(cm: Committee, committed: set<Certificate>, s: State, c: Certificate)
    requires Accounted(cm, committed, s) && c in committed
    ensures c.round <= s.lastCommitted[c.author] <= s.lastCommittedRound
  {
    assert s.lastCommitted[c.author] in s.lastCommitted.Values;
  }

  lemma AuthorRound(cm: Committee, committed: set<Certificate>, s: State, k: Key)
    requires Accounted(cm, committed, s) && k in s.lastCommitted
    ensures s.lastCommitted[k] <= s.lastCommittedRound
  {
    assert s.lastCommitted[k] in s.lastCommitted.Values;
  }

  lemma InvInitial(cm: Committee, gcDepth: Round, u: set<Certificate>)
    requires GoodDag(cm, u)
    ensures Inv(cm, gcDepth, u, Genesis(cm), Genesis(cm), InitialState(cm))
    ensures Tight(Genesis(cm), InitialState(cm))
    ensures InitialState(cm).lastCommittedRound == 0
  {
    var s := InitialState(cm);
    assert s.lastCommitted[cm.keys[0]] in s.lastCommitted.Values;
    forall k | k in s.lastCommitted
      ensures exists c :: c in Genesis(cm) && c.author == k && c.round == s.lastCommitted[k]
    {
      assert GenesisOf(k) in Genesis(cm);
    }
  }

  /** Late, repeated and new deliveries all keep the invariant; only a stale one can break `Tight`. */
  lemma InvInsert(cm: Committee, gcDepth: Round, u: set<Certificate>, delivered: set<Certificate>,
                  committed: set<Certificate>, s: State, c: Certificate)
    requires Inv(cm, gcDepth, u, delivered, committed, s)
    requires c in u && forall y :: y in u && Edge(c, y) ==> y in delivered
    ensures Insert(s, c).dag == s.dag + {c}
    ensures Inv(cm, gcDepth, u, delivered + {c}, committed, Insert(s, c))
    ensures Tight(committed, s) && (c in committed ==> s.lastCommitted[c.author] <= c.round) ==> Tight(committed, Insert(s, c))
  {
    assert forall x :: x in s.dag && SameSlot(x, c) ==> x == c;
  }

  lemma MaxIs(rs: set<Round>, m: Round)
    requires m in rs && forall r :: r in rs ==> r <= m
    ensures MaxOf(rs) == m
  {
  }

  lemma BumpedValues(cm: Committee, committed: set<Certificate>, s: State, x: Certificate)
    requires Accounted(cm, committed, s) && x.author in cm.keys
    ensures forall k :: k in s.lastCommitted ==> s.lastCommitted[k] <= Bumped(s.lastCommitted, x)[k]
    ensures MaxOf(Bumped(s.lastCommitted, x).Values) ==
            if s.lastCommittedRound <= x.round then x.round else s.lastCommittedRound
  {
    var lcBefore, lc, lcr := s.lastCommitted, Bumped(s.lastCommitted, x), s.lastCommittedRound;
    assert lc.Keys == lcBefore.Keys && x.author in lcBefore;
    assert lcBefore[x.author] in lcBefore.Values;
    assert forall k :: k in lcBefore ==> lcBefore[k] in lcBefore.Values;
    var top :| top in lcBefore && lcBefore[top] == lcr;
    hide MaxOf, Accounted;
    forall k | k in lc
      ensures lc[k] <= if lcr <= x.round then x.round else lcr
    {
      assert lcBefore[k] in lcBefore.Values;
    }
    var m := if lcr <= x.round then x.author else top;
    assert lc[m] in lc.Values;
    MaxIs(lc.Values, lc[m]);
  }

  lemma AccountedUpdate(cm: Committee, gcDepth: Round, committed: set<Certificate>, s: State, x: Certificate)
    requires Accounted(cm, committed, s) && x.author in cm.keys
    ensures Accounted(cm, committed + {x}, Update(s, x, gcDepth))
    ensures Update(s, x, gcDepth).lastCommittedRound ==
            if s.lastCommittedRound <= x.round then x.round else s.lastCommittedRound
  {
    BumpedValues(cm, committed, s, x);
    var s' := Update(s, x, gcDepth);
    assert s'.lastCommitted.Keys == s.lastCommitted.Keys;
    forall k | k in s'.lastCommitted
      ensures exists c :: c in committed + {x} && c.author == k && c.round == s'.lastCommitted[k]
    {
      if s'.lastCommitted[k] == s.lastCommitted[k] {
        var c :| c in committed && c.author == k && c.round == s.lastCommitted[k];
        assert c in committed + {x};
      } else {
        assert k == x.author && x.round == s'.lastCommitted[k];
      }
    }
  }

  lemma RetainedUpdate(cm: Committee, gcDepth: Round, delivered: set<Certificate>, committed: set<Certificate>,
                       s: State, x: Certificate)
    requires Accounted(cm, committed, s) && x.author in cm.keys && Retained(delivered, gcDepth, s)
    ensures Retained(delivered, gcDepth, Update(s, x, gcDepth))
    ensures Tight(committed + {x}, Update(s, x, gcDepth))
  {
    AccountedUpdate(cm, gcDepth, committed, s, x);
    BumpedValues(cm, committed, s, x);
    var s' := Update(s, x, gcDepth);
    forall c | c in delivered && Kept(s'.lastCommitted, s'.lastCommittedRound, gcDepth, c)
      ensures c in s'.dag
    {
      assert Kept(s.lastCommitted, s.lastCommittedRound, gcDepth, c);
    }
  }

  lemma InvUpdated(cm: Committee, gcDepth: Round, u: set<Certificate>, delivered: set<Certificate>,
                   committed: set<Certificate>, s: State, x: Certificate)
    requires Inv(cm, gcDepth, u, delivered, committed, s) && x in delivered
    ensures Inv(cm, gcDepth, u, delivered, committed + {x}, Update(s, x, gcDepth))
    ensures Tight(committed + {x}, Update(s, x, gcDepth))
    ensures Update(s, x, gcDepth).lastCommittedRound ==
            if s.lastCommittedRound <= x.round then x.round else s.lastCommittedRound
  {
    AuthorInCommittee(cm, u, x);
    AccountedUpdate(cm, gcDepth, committed, s, x);
    RetainedUpdate(cm, gcDepth, delivered, committed, s, x);
  }

  lemma UpdateKeepsExactly(s: State, x: Certificate, gcDepth: Round)
    ensures var t := Update(s, x, gcDepth);
            forall y :: y in t.dag <==>
              && y in s.dag && (y.author in t.lastCommitted ==> t.lastCommitted[y.author] <= y.round)
              && t.lastCommittedRound <= y.round + gcDepth
  {
    hide MaxOf, Bumped;
  }

  /**
   * Committing one certificate keeps the invariant, makes `Tight` hold whether or not it did before, and leaves in memory
   * exactly what is neither below its author's last committed round nor further than `gcDepth` behind the last one.
   */
  lemma InvUpdate(cm: Committee, gcDepth: Round, u: set<Certificate>, delivered: set<Certificate>,
                  committed: set<Certificate>, s: State, x: Certificate)
    requires Inv(cm, gcDepth, u, delivered, committed, s) && x in delivered
    ensures Inv(cm, gcDepth, u, delivered, committed + {x}, Update(s, x, gcDepth))
    ensures Tight(committed + {x}, Update(s, x, gcDepth))
    ensures var t := Update(s, x, gcDepth);
            && t.lastCommittedRound == (if s.lastCommittedRound <= x.round then x.round else s.lastCommittedRound)
            && forall y :: y in t.dag <==>
                 && y in s.dag && (y.author in t.lastCommitted ==> t.lastCommitted[y.author] <= y.round)
                 && t.lastCommittedRound <= y.round + gcDepth
  {
    hide Inv, Tight, Update;
    InvUpdated(cm, gcDepth, u, delivered, committed, s, x);
    UpdateKeepsExactly(s, x, gcDepth);
  }

  ghost predicate BoundedBy(xs: seq<Certificate>, r: Round) {
    forall x :: x in xs ==> x.round <= r
  }

  lemma ElementsOf(xs: seq<Certificate>)
    requires xs != []
    ensures Members(xs) == {xs[0]} + Members(xs[1..])
  {
    assert forall x :: x in xs <==> x == xs[0] || x in xs[1..];
  }

  /** A whole flattened sub-DAG. */
  lemma {:induction false} InvUpdateAll(cm: Committee, gcDepth: Round, u: set<Certificate>, delivered: set<Certificate>,
                                        committed: set<Certificate>, s: State, xs: seq<Certificate>, after: set<Certificate>)
    requires Inv(cm, gcDepth, u, delivered, committed, s)
    requires Members(xs) <= delivered && after == committed + Members(xs)
    ensures Inv(cm, gcDepth, u, delivered, after, UpdateAll(s, xs, gcDepth))
    ensures Tight(committed, s) || xs != [] ==> Tight(after, UpdateAll(s, xs, gcDepth))
    decreases |xs|
  {
    hide Inv, Tight, Update;
    if xs == [] {
      assert after == committed;
    } else {
      ElementsOf(xs);
      InvUpdate(cm, gcDepth, u, delivered, committed, s, xs[0]);
      InvUpdateAll(cm, gcDepth, u, delivered, committed + {xs[0]}, Update(s, xs[0], gcDepth), xs[1..], after);
    }
  }

  lemma {:induction false} UpdateAllResolved(s: State, xs: seq<Certificate>, gcDepth: Round)
    ensures UpdateAll(s, xs, gcDepth).resolved == s.resolved
    decreases |xs|
  {
    if xs != [] {
      UpdateAllResolved(Update(s, xs[0], gcDepth), xs[1..], gcDepth);
    }
  }

  /** The last committed round after a sub-DAG whose highest round is `top`. */
  lemma {:induction false} UpdateAllRound(cm: Committee, gcDepth: Round, u: set<Certificate>, delivered: set<Certificate>,
                                          committed: set<Certificate>, s: State, xs: seq<Certificate>, top: Round)
    requires Inv(cm, gcDepth, u, delivered, committed, s) && Members(xs) <= delivered
    requires s.lastCommittedRound <= top && BoundedBy(xs, top)
    ensures s.lastCommittedRound <= UpdateAll(s, xs, gcDepth).lastCommittedRound <= top
    ensures forall x :: x in xs ==> x.round <= UpdateAll(s, xs, gcDepth).lastCommittedRound
    decreases |xs|
  {
    if xs != [] {
      ElementsOf(xs);
      assert xs[0] in xs && BoundedBy(xs[1..], top);
      InvUpdate(cm, gcDepth, u, delivered, committed, s, xs[0]);
      UpdateAllRound(cm, gcDepth, u, delivered, committed + {xs[0]}, Update(s, xs[0], gcDepth), xs[1..], top);
    }
  }

  // ----- Paths -----

  lemma {:induction false} LevelIsReachable(cm: Committee, u: set<Certificate>, x: Certificate, r: Round, c: Certificate)
    requires GoodDag(cm, u) && x in u && r <= x.round
    ensures c in Level(u, x, r) <==> c in u && c.round == r && Reaches(u, x, c)
    decreases x.round - r
  {
    if r < x.round {
      if c in Level(u, x, r) {
        var y :| y in Level(u, x, r + 1) && Edge(y, c);
        LevelIsReachable(cm, u, x, r + 1, y);
        assert c in u && c.round < y.round && Edge(y, c) && Reaches(u, c, c);
        ReachesTransitive(u, x, y, c);
      } else if c in u && c.round == r && Reaches(u, x, c) {
        var y := LastEdge(cm, u, x, c);
        LevelIsReachable(cm, u, x, r + 1, y);
      }
    } else if Reaches(u, x, c) {
      ReachesRound(u, x, c);
    }
  }

  /** Dropping certificates below round `r`, or any that `x` cannot reach, does not change the levels down to `r`. */
  lemma {:induction false} LevelOfPruned(u: set<Certificate>, s: set<Certificate>, dag: set<Certificate>,
                                         x: Certificate, r: Round)
    requires AncestorClosed(u, s) && s <= u && x in s && r <= x.round
    requires dag <= s && forall c :: c in s && r <= c.round ==> c in dag
    ensures Level(dag, x, r) == Level(u, x, r) <= s
    decreases x.round - r
  {
    if r < x.round {
      LevelOfPruned(u, s, dag, x, r + 1);
    }
  }

  /** Every delivered certificate at or above the last committed round is still in memory. */
  lemma RecentRetained(cm: Committee, gcDepth: Round, u: set<Certificate>, delivered: set<Certificate>,
                       committed: set<Certificate>, s: State, c: Certificate)
    requires Inv(cm, gcDepth, u, delivered, committed, s) && c in delivered && s.lastCommittedRound <= c.round
    ensures c in s.dag
  {
    AuthorInCommittee(cm, u, c);
    AuthorRound(cm, committed, s, c.author);
  }

  /**
   * Pruning refines the full DAG: above the last committed round, the level-by-level search over the certificates
   * still in memory answers reachability over everything ever certified.
   */
  lemma LinkedIsReachable(cm: Committee, gcDepth: Round, u: set<Certificate>, delivered: set<Certificate>,
                          committed: set<Certificate>, s: State, x: Certificate, y: Certificate)
    requires Inv(cm, gcDepth, u, delivered, committed, s)
    requires x in delivered && y in delivered && s.lastCommittedRound <= y.round
    ensures Linked(s.dag, x, y) <==> Reaches(u, x, y)
  {
    RecentAllRetained(cm, gcDepth, u, delivered, committed, s, y.round);
    LinkedOfPruned(cm, u, delivered, s.dag, x, y);
  }

  lemma LinkedOfPruned(cm: Committee, u: set<Certificate>, delivered: set<Certificate>, dag: set<Certificate>,
                       x: Certificate, y: Certificate)
    requires History(cm, u, delivered) && dag <= delivered && x in delivered && y in delivered
    requires forall c :: c in delivered && y.round <= c.round ==> c in dag
    ensures Linked(dag, x, y) <==> Reaches(u, x, y)
  {
    if y.round <= x.round {
      LevelOfPruned(u, delivered, dag, x, y.round);
      LevelIsReachable(cm, u, x, y.round, y);
      LinkedIsMember(u, dag, x, y);
    } else if Reaches(u, x, y) {
      ReachesRound(u, x, y);
    }
  }

  lemma RecentAllRetained(cm: Committee, gcDepth: Round, u: set<Certificate>, delivered: set<Certificate>,
                          committed: set<Certificate>, s: State, r: Round)
    requires Inv(cm, gcDepth, u, delivered, committed, s) && s.lastCommittedRound <= r
    ensures forall c :: c in delivered && r <= c.round ==> c in s.dag
  {
    forall c | c in delivered && r <= c.round
      ensures c in s.dag
    {
      RecentRetained(cm, gcDepth, u, delivered, committed, s, c);
    }
  }

  lemma LinkedIsMember(u: set<Certificate>, dag: set<Certificate>, x: Certificate, y: Certificate)
    requires SlotUnique(u) && y in u && Level(dag, x, y.round) <= u
    ensures Linked(dag, x, y) <==> y in Level(dag, x, y.round)
  {
    forall z | z in Level(dag, x, y.round) && z.Digest() == y.Digest()
      ensures z == y
    {
      assert SameSlot(z, y);
    }
  }

  /** The row the search expects at each round on the way down is there. */
  lemma {:induction false} RowPresent(cm: Committee, gcDepth: Round, u: set<Certificate>, delivered: set<Certificate>,
                                      committed: set<Certificate>, s: State, x: Certificate, r: Round)
    requires Inv(cm, gcDepth, u, delivered, committed, s)
    requires x in delivered && s.lastCommittedRound <= r <= x.round
    ensures exists c :: c in s.dag && c.round == r
    decreases x.round - r
  {
    if r < x.round {
      RowPresent(cm, gcDepth, u, delivered, committed, s, x, r + 1);
      var c :| c in s.dag && c.round == r + 1;
      var y := SomeParent(cm, u, c);
      RecentRetained(cm, gcDepth, u, delivered, committed, s, y);
    } else {
      RecentRetained(cm, gcDepth, u, delivered, committed, s, x);
    }
  }
}
