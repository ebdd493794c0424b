/** Flattening a sub-DAG: what the depth-first search with marking visits, in which order, and what the sort keeps. */
module SubDags {
  import opened Collections
  import opened Committees
  import opened Dags
  import opened Engine

  /** Every edge into `v` steps down exactly one round, and digests tell certificates apart. */
  ghost predicate Layered(v: set<Certificate>, leader: Certificate) {
    && SlotUnique(v + {leader})
    && (forall x, y :: x in v + {leader} && y in v && Edge(x, y) ==> y.round + 1 == x.round)
  }

  ghost predicate ChildIn(v: set<Certificate>, x: Certificate, p: Certificate) {
    p in v && p.round + 1 == x.round && Edge(x, p)
  }

  lemma FindParentUnique(v: set<Certificate>, x: Certificate, p: Certificate)
    requires SlotUnique(v) && p in v && p.round + 1 == x.round
    ensures FindParent(v, x, p.Digest()) == Some(p)
  {
    var q := FindParent(v, x, p.Digest()).value;
    assert SameSlot(p, q);
  }

  ghost function Digests(s: set<Certificate>): set<Digest> {
    set c | c in s :: c.Digest()
  }

  /** What one turn of the inner loop pushes: exactly the children not marked before, each once. */
  lemma {:induction false} PushParentsAdds(v: set<Certificate>, x: Certificate, ds: seq<Digest>,
                                           stack: seq<Certificate>, marked: set<Digest>)
    returns (pushed: seq<Certificate>)
    requires SlotUnique(v) && forall d :: d in ds ==> d in x.parents
    ensures PushParents(v, x, ds, stack, marked) == (stack + pushed, marked + Digests(Members(pushed)))
    ensures forall c :: c in pushed ==> ChildIn(v, x, c) && c.Digest() !in marked
    ensures NoRepeats(pushed)
    ensures forall c :: ChildIn(v, x, c) && c.Digest() in ds ==> c.Digest() in marked || c in pushed
    decreases |ds|
  {
    pushed := [];
    if ds == [] {
      assert stack + pushed == stack && marked + Digests(Members(pushed)) == marked;
    } else {
      assert ds[0] in ds && forall d :: d in ds[1..] ==> d in ds;
      var found := FindParent(v, x, ds[0]);
      if found.None? || ds[0] in marked {
        pushed := PushParentsAdds(v, x, ds[1..], stack, marked);
      } else {
        var p := found.value;
        var rest := PushParentsAdds(v, x, ds[1..], stack + [p], marked + {ds[0]});
        pushed := [p] + rest;
        assert stack + [p] + rest == stack + pushed;
        assert (Members(pushed)) == {p} + Members(rest);
        assert marked + {ds[0]} + Digests(Members(rest)) == marked + Digests(Members(pushed));
      }
      forall c | ChildIn(v, x, c) && c.Digest() in ds
        ensures c.Digest() in marked || c in pushed
      {
        FindParentUnique(v, x, c);
        if c.Digest() == ds[0] && found.Some? {
          assert c == found.value;
        }
      }
    }
  }

  /** The search has finished `done`, has `stack` still to visit, and has marked all of them but the leader. */
  ghost predicate Searching(v: set<Certificate>, leader: Certificate, done: set<Certificate>,
                            stack: seq<Certificate>, marked: set<Digest>) {
    && (forall c :: c in stack || c in done ==> Reaches(v, leader, c) && (c != leader ==> c.Digest() in marked))
    && NoRepeats(stack)
    && (forall c :: c in stack ==> c !in done)
    && (forall c :: c in v && c.Digest() in marked ==> c in stack || c in done)
    && (forall x, p :: x in done && ChildIn(v, x, p) ==> p.Digest() in marked)
  }

  /** What `x`, popped from above `below`, pushes. */
  ghost predicate Pushes(v: set<Certificate>, x: Certificate, pushed: seq<Certificate>,
                         marked: set<Digest>, mk: set<Digest>) {
    && mk == marked + Digests(Members(pushed))
    && (forall c :: c in pushed ==> ChildIn(v, x, c) && c.Digest() !in marked)
    && NoRepeats(pushed)
    && (forall c :: ChildIn(v, x, c) ==> c.Digest() in marked || c in pushed)
  }

  lemma PushedAreNew(v: set<Certificate>, leader: Certificate, done: set<Certificate>, below: seq<Certificate>,
                     x: Certificate, pushed: seq<Certificate>, marked: set<Digest>, mk: set<Digest>)
    requires Layered(v, leader) && Searching(v, leader, done, below + [x], marked) && Pushes(v, x, pushed, marked, mk)
    ensures forall c :: c in pushed ==> Reaches(v, leader, c) && c != leader && c.Digest() in mk
    ensures forall c :: c in pushed ==> c !in below && c != x && c !in done
  {
    assert (below + [x])[|below|] == x;
    assert forall c :: c in below ==> c in below + [x];
    ReachesRound(v, leader, x);
    forall c | c in pushed
      ensures Reaches(v, leader, c) && c != leader && c.Digest() in mk && c !in below && c != x && c !in done
    {
      assert c in v && c.round < x.round && Edge(x, c) && Reaches(v, c, c);
      ReachesTransitive(v, leader, x, c);
      assert c in Members(pushed);
    }
  }

  lemma MarkedAccountedFor(v: set<Certificate>, leader: Certificate, done: set<Certificate>, below: seq<Certificate>,
                           x: Certificate, pushed: seq<Certificate>, marked: set<Digest>, mk: set<Digest>)
    requires Layered(v, leader) && Searching(v, leader, done, below + [x], marked) && Pushes(v, x, pushed, marked, mk)
    ensures forall c :: c in v && c.Digest() in mk ==> c in below + pushed || c in done + {x}
    ensures forall y, p :: y in done + {x} && ChildIn(v, y, p) ==> p.Digest() in mk
  {
    forall c | c in v && c.Digest() in mk
      ensures c in below + pushed || c in done + {x}
    {
      if c.Digest() !in marked {
        var e :| e in pushed && e.Digest() == c.Digest();
        assert SameSlot(c, e);
      } else if c !in done {
        assert c in below + [x];
      }
    }
    forall y, p | y in done + {x} && ChildIn(v, y, p)
      ensures p.Digest() in mk
    {
      if p in pushed {
        assert p in Members(pushed);
      }
    }
  }

  lemma SearchStep(v: set<Certificate>, leader: Certificate, done: set<Certificate>, below: seq<Certificate>,
                   x: Certificate, pushed: seq<Certificate>, marked: set<Digest>, mk: set<Digest>)
    requires Layered(v, leader) && Searching(v, leader, done, below + [x], marked) && Pushes(v, x, pushed, marked, mk)
    ensures Searching(v, leader, done + {x}, below + pushed, mk)
  {
    PushedAreNew(v, leader, done, below, x, pushed, marked, mk);
    MarkedAccountedFor(v, leader, done, below, x, pushed, marked, mk);
    var stack := below + [x];
    assert stack[|below|] == x && forall i :: 0 <= i < |below| ==> stack[i] == below[i];
    assert forall c :: c in below ==> c in stack && c != x;
    assert x in stack;
    assert forall i :: 0 <= i < |below| ==> below[i] in below;
  }

  lemma {:induction false} SearchEnds(v: set<Certificate>, leader: Certificate, done: set<Certificate>,
                                      stack: seq<Certificate>, marked: set<Digest>)
    requires Layered(v, leader) && Searching(v, leader, done, stack, marked)
    ensures var out := Dfs(v, stack, marked);
            && NoRepeats(out)
            && (forall c :: c in out ==> c !in done && Reaches(v, leader, c))
            && (forall c :: c in stack ==> c in out)
            && (forall x, p :: (x in done || x in out) && ChildIn(v, x, p) ==> p in done || p in out)
    decreases |Unmarked(v, marked)|, |stack|
  {
    if stack != [] {
      var x := stack[|stack| - 1];
      var below := stack[..|stack| - 1];
      var (st, mk) := PushParents(v, x, x.parents, below, marked);
      var pushed := PushParentsAdds(v, x, x.parents, below, marked);
      assert stack == below + [x];
      SearchStep(v, leader, done, below, x, pushed, marked, mk);
      SearchEnds(v, leader, done + {x}, st, mk);
      assert forall c :: c in stack ==> c == x || c in below;
      assert forall c :: c in below ==> c in st;
      assert x in stack;
    }
  }

  lemma {:induction false} ClosedContains(v: set<Certificate>, leader: Certificate, out: seq<Certificate>,
                                          x: Certificate, c: Certificate)
    requires Layered(v, leader) && x in out && (x == leader || x in v) && Reaches(v, x, c)
    requires forall y, p :: y in out && ChildIn(v, y, p) ==> p in out
    ensures c in out
    decreases x.round
  {
    if x != c {
      var y :| y in v && y.round < x.round && Edge(x, y) && Reaches(v, y, c);
      assert ChildIn(v, x, y);
      ClosedContains(v, leader, out, y, c);
    }
  }

  /** The search visits each certificate reachable inside `v` once, and nothing else. */
  lemma DfsVisits(v: set<Certificate>, leader: Certificate)
    requires Layered(v, leader)
    ensures NoRepeats(Dfs(v, [leader], {}))
    ensures forall c :: c in Dfs(v, [leader], {}) <==> Reaches(v, leader, c)
  {
    SearchEnds(v, leader, {}, [leader], {});
    forall c | Reaches(v, leader, c)
      ensures c in Dfs(v, [leader], {})
    {
      assert leader in [leader];
      ClosedContains(v, leader, Dfs(v, [leader], {}), leader, c);
    }
  }

  // ----- Dropping what the search may meet below the horizon -----

  lemma {:induction false} AboveHorizonConcat(xs: seq<Certificate>, ys: seq<Certificate>, lcr: Round, gcDepth: Round)
    ensures AboveHorizon(xs + ys, lcr, gcDepth) == AboveHorizon(xs, lcr, gcDepth) + AboveHorizon(ys, lcr, gcDepth)
  {
    if xs == [] {
      assert xs + ys == ys;
    } else {
      assert (xs + ys)[1..] == xs[1..] + ys;
      AboveHorizonConcat(xs[1..], ys, lcr, gcDepth);
    }
  }

  lemma {:induction false} AboveHorizonElements(xs: seq<Certificate>, lcr: Round, gcDepth: Round)
    ensures forall c :: c in AboveHorizon(xs, lcr, gcDepth) <==> c in xs && lcr <= c.round + gcDepth
    ensures NoRepeats(xs) ==> NoRepeats(AboveHorizon(xs, lcr, gcDepth))
  {
    if xs != [] {
      AboveHorizonElements(xs[1..], lcr, gcDepth);
      assert forall c :: c in xs <==> c == xs[0] || c in xs[1..];
    }
  }

  // ----- Sorting -----

  ghost predicate ByRound(xs: seq<Certificate>) {
    forall i, j :: 0 <= i < j < |xs| ==> xs[i].round <= xs[j].round
  }

  lemma {:induction false} InsertByRoundKeeps(x: Certificate, xs: seq<Certificate>)
    ensures multiset(InsertByRound(x, xs)) == multiset(xs) + multiset{x}
  {
    if xs != [] && xs[0].round < x.round {
      InsertByRoundKeeps(x, xs[1..]);
      assert xs == [xs[0]] + xs[1..];
    }
  }

  lemma {:induction false} InsertByRoundSorts(x: Certificate, xs: seq<Certificate>)
    requires ByRound(xs)
    ensures ByRound(InsertByRound(x, xs))
    ensures forall y :: y in InsertByRound(x, xs) ==> y == x || y in xs
  {
    if xs != [] && xs[0].round < x.round {
      InsertByRoundSorts(x, xs[1..]);
      var rest := InsertByRound(x, xs[1..]);
      forall i | 0 <= i < |rest|
        ensures xs[0].round <= rest[i].round
      {
        assert rest[i] in rest;
      }
    }
  }

  /** The output order puts every certificate after the ones it descends from and loses none. */
  lemma {:induction false} SortByRoundSorts(xs: seq<Certificate>)
    ensures ByRound(SortByRound(xs))
    ensures multiset(SortByRound(xs)) == multiset(xs)
  {
    if xs != [] {
      SortByRoundSorts(xs[1..]);
      InsertByRoundSorts(xs[0], SortByRound(xs[1..]));
      InsertByRoundKeeps(xs[0], SortByRound(xs[1..]));
      assert xs == [xs[0]] + xs[1..];
    }
  }

  lemma SameElements(xs: seq<Certificate>, ys: seq<Certificate>)
    requires multiset(xs) == multiset(ys)
    ensures forall c :: c in xs <==> c in ys
    ensures NoRepeats(xs) ==> NoRepeats(ys)
  {
    forall c
      ensures c in xs <==> c in ys
    {
      assert c in xs <==> c in multiset(xs);
      assert c in ys <==> c in multiset(ys);
    }
    if NoRepeats(xs) && !NoRepeats(ys) {
      var i, j :| 0 <= i < j < |ys| && ys[i] == ys[j];
      TwiceInMultiset(ys, i, j);
      OnceInMultiset(xs, ys[i]);
    }
  }

  lemma TwiceInMultiset(ys: seq<Certificate>, i: nat, j: nat)
    requires i < j < |ys| && ys[i] == ys[j]
    ensures multiset(ys)[ys[i]] >= 2
  {
    assert ys == ys[..j] + [ys[j]] + ys[j + 1..];
    assert ys[i] == ys[..j][i];
    assert ys[i] in multiset(ys[..j]);
  }

  lemma {:induction false} OnceInMultiset(xs: seq<Certificate>, c: Certificate)
    requires NoRepeats(xs)
    ensures multiset(xs)[c] <= 1
  {
    if xs != [] {
      assert xs == [xs[0]] + xs[1..];
      OnceInMultiset(xs[1..], c);
      if c in multiset(xs[1..]) {
        assert c in xs[1..];
      }
    }
  }

  /**
   * The flattened sub-DAG of a leader is exactly what the search reaches from it through certificates in memory that are
   * not at their author's last committed round, cut at the garbage-collection horizon, lowest rounds first, each once.
   */
  lemma OrderDagExact(s: State, leader: Certificate, gcDepth: Round)
    requires Layered(Visible(s), leader)
    ensures NoRepeats(OrderDag(s, leader, gcDepth)) && ByRound(OrderDag(s, leader, gcDepth))
    ensures forall c :: c in OrderDag(s, leader, gcDepth) <==>
                        Reaches(Visible(s), leader, c) && s.lastCommittedRound <= c.round + gcDepth
  {
    var xs := Dfs(Visible(s), [leader], {});
    DfsVisits(Visible(s), leader);
    AboveHorizonElements(xs, s.lastCommittedRound, gcDepth);
    var ys := AboveHorizon(xs, s.lastCommittedRound, gcDepth);
    SortByRoundSorts(ys);
    SameElements(ys, SortByRound(ys));
  }
}
