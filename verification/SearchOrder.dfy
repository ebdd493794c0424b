/**
 * The order of the committed output: within a round certificates stay in the order in which the search found them, and the
 * search always goes on with the certificate that was listed last among those not visited yet.
 */
module SearchOrder {
  import opened Collections
  import opened Committees
  import opened Dags
  import opened Engine
  import opened SubDags

  // ----- The sort keeps the order within a round -----

  ghost function InRound(xs: seq<Certificate>, r: Round): seq<Certificate> {
    if xs == [] then [] else (if xs[0].round == r then [xs[0]] else []) + InRound(xs[1..], r)
  }

  lemma {:induction false} NothingInRound(xs: seq<Certificate>, r: Round)
    requires forall x :: x in xs ==> x.round != r
    ensures InRound(xs, r) == []
    decreases |xs|
  {
    if xs != [] {
      assert xs[0] in xs && forall x :: x in xs[1..] ==> x in xs;
      NothingInRound(xs[1..], r);
    }
  }

  lemma {:induction false} InsertIsStable(x: Certificate, xs: seq<Certificate>, r: Round)
    requires ByRound(xs)
    ensures InRound(InsertByRound(x, xs), r) == (if x.round == r then [x] else []) + InRound(xs, r)
    decreases |xs|
  {
    if xs == [] || x.round <= xs[0].round {
      assert ([x] + xs)[1..] == xs;
    } else {
      var rest := InsertByRound(x, xs[1..]);
      InsertIsStable(x, xs[1..], r);
      assert ([xs[0]] + rest)[1..] == rest;
      var first := if xs[0].round == r then [xs[0]] else [];
      var mine := if x.round == r then [x] else [];
      assert x.round == r ==> first == [];
      assert first + (mine + InRound(xs[1..], r)) == mine + (first + InRound(xs[1..], r));
    }
  }

  lemma {:induction false} SortIsStable(xs: seq<Certificate>, r: Round)
    ensures InRound(SortByRound(xs), r) == InRound(xs, r)
    decreases |xs|
  {
    if xs != [] {
      SortIsStable(xs[1..], r);
      SortByRoundSorts(xs[1..]);
      InsertIsStable(xs[0], SortByRound(xs[1..]), r);
    }
  }

  lemma {:induction false} HorizonCutsRounds(xs: seq<Certificate>, lcr: Round, gcDepth: Round, r: Round)
    ensures InRound(AboveHorizon(xs, lcr, gcDepth), r) == if lcr <= r + gcDepth then InRound(xs, r) else []
    decreases |xs|
  {
    if xs != [] {
      HorizonCutsRounds(xs[1..], lcr, gcDepth, r);
      var rest := AboveHorizon(xs[1..], lcr, gcDepth);
      if lcr <= xs[0].round + gcDepth {
        assert ([xs[0]] + rest)[1..] == rest;
      } else {
        assert [] + rest == rest;
      }
    }
  }

  // ----- The search goes on with the certificate listed last -----

  /** `xs[m]` is the first of the visited certificates that lists `p`. */
  ghost predicate ListedAt(v: set<Certificate>, xs: seq<Certificate>, p: Certificate, m: nat) {
    m < |xs| && ChildIn(v, xs[m], p) && forall i :: 0 <= i < m ==> !ChildIn(v, xs[i], p)
  }

  ghost predicate Listed(v: set<Certificate>, xs: seq<Certificate>, p: Certificate) {
    exists m: nat :: ListedAt(v, xs, p, m)
  }

  /** `a` comes before every occurrence of `b`. */
  ghost predicate Precedes(ds: seq<Digest>, a: Digest, b: Digest) {
    exists i :: 0 <= i < |ds| && ds[i] == a && b !in ds[..i + 1]
  }

  /** `q` was first listed after `p`: by a certificate visited later, or further down the parents of the same one. */
  ghost predicate ListedLater(v: set<Certificate>, xs: seq<Certificate>, p: Certificate, q: Certificate) {
    exists m: nat, n: nat :: ListedAt(v, xs, p, m) && ListedAt(v, xs, q, n)
                                    && (m < n || (m == n && Precedes(xs[m].parents, p.Digest(), q.Digest())))
  }

  /** Of the certificates listed by those visited and not visited themselves, `y` was listed last. */
  ghost predicate Newest(v: set<Certificate>, visited: seq<Certificate>, y: Certificate) {
    && Listed(v, visited, y) && y !in visited
    && forall p :: Listed(v, visited, p) && p !in visited && p != y ==> ListedLater(v, visited, p, y)
  }

  /** The certificates still to visit, in the order in which they were listed. */
  ghost predicate Stacked(v: set<Certificate>, visited: seq<Certificate>, stack: seq<Certificate>) {
    && (forall i :: 0 <= i < |stack| ==> Listed(v, visited, stack[i]))
    && (forall i, j :: 0 <= i < j < |stack| ==> ListedLater(v, visited, stack[i], stack[j]))
  }

  ghost predicate InOrderListed(ds: seq<Digest>, pushed: seq<Certificate>) {
    forall i, j :: 0 <= i < j < |pushed| ==> Precedes(ds, pushed[i].Digest(), pushed[j].Digest())
  }

  lemma PrecedesLater(d: Digest, ds: seq<Digest>, a: Digest, b: Digest)
    requires Precedes(ds, a, b) && d != b
    ensures Precedes([d] + ds, a, b)
  {
    var i :| 0 <= i < |ds| && ds[i] == a && b !in ds[..i + 1];
    assert ([d] + ds)[i + 1] == a;
    assert ([d] + ds)[..i + 2] == [d] + ds[..i + 1];
  }

  lemma PrecedesNow(d: Digest, ds: seq<Digest>, b: Digest)
    requires d != b
    ensures Precedes([d] + ds, d, b)
  {
    assert ([d] + ds)[0] == d && ([d] + ds)[..1] == [d];
  }

  /** One turn of the inner loop pushes in the order of the parents. */
  lemma {:induction false} PushedInOrder(v: set<Certificate>, x: Certificate, ds: seq<Digest>, stack: seq<Certificate>,
                                         marked: set<Digest>)
    returns (pushed: seq<Certificate>)
    requires SlotUnique(v)
    ensures PushParents(v, x, ds, stack, marked).0 == stack + pushed
    ensures InOrderListed(ds, pushed)
    ensures forall c :: c in pushed ==> FindParent(v, x, c.Digest()) == Some(c) && c.Digest() !in marked
    decreases |ds|
  {
    hide SlotUnique;
    pushed := [];
    if ds == [] {
      assert stack + pushed == stack;
    } else {
      assert ds == [ds[0]] + ds[1..];
      var found := FindParent(v, x, ds[0]);
      if found.None? || ds[0] in marked {
        pushed := PushedInOrder(v, x, ds[1..], stack, marked);
        StillInOrder(ds[0], ds[1..], pushed);
      } else {
        var rest := PushedInOrder(v, x, ds[1..], stack + [found.value], marked + {ds[0]});
        pushed := [found.value] + rest;
        assert stack + [found.value] + rest == stack + pushed;
        FirstInOrder(ds[0], ds[1..], found.value, rest);
      }
    }
  }

  lemma StillInOrder(d: Digest, ds: seq<Digest>, pushed: seq<Certificate>)
    requires InOrderListed(ds, pushed) && forall c :: c in pushed ==> c.Digest() != d
    ensures InOrderListed([d] + ds, pushed)
  {
    forall i, j | 0 <= i < j < |pushed|
      ensures Precedes([d] + ds, pushed[i].Digest(), pushed[j].Digest())
    {
      PrecedesLater(d, ds, pushed[i].Digest(), pushed[j].Digest());
    }
  }

  lemma FirstInOrder(d: Digest, ds: seq<Digest>, p: Certificate, rest: seq<Certificate>)
    requires InOrderListed(ds, rest) && p.Digest() == d && forall c :: c in rest ==> c.Digest() != d
    ensures InOrderListed([d] + ds, [p] + rest)
  {
    StillInOrder(d, ds, rest);
    var pushed := [p] + rest;
    forall i, j | 0 <= i < j < |pushed|
      ensures Precedes([d] + ds, pushed[i].Digest(), pushed[j].Digest())
    {
      if i == 0 {
        assert pushed[j] == rest[j - 1];
        PrecedesNow(d, ds, pushed[j].Digest());
      } else {
        assert pushed[i] == rest[i - 1] && pushed[j] == rest[j - 1];
      }
    }
  }

  lemma ListedStays(v: set<Certificate>, visited: seq<Certificate>, x: Certificate, p: Certificate, m: nat)
    requires m < |visited|
    ensures ListedAt(v, visited + [x], p, m) <==> ListedAt(v, visited, p, m)
  {
    var xs := visited + [x];
    assert xs[m] == visited[m] && forall i :: 0 <= i < m ==> xs[i] == visited[i];
  }

  lemma LaterStays(v: set<Certificate>, visited: seq<Certificate>, x: Certificate, p: Certificate, q: Certificate)
    requires ListedLater(v, visited, p, q)
    ensures ListedLater(v, visited + [x], p, q)
  {
    hide Precedes, ChildIn;
    var m: nat, n: nat :| ListedAt(v, visited, p, m) && ListedAt(v, visited, q, n)
                && (m < n || (m == n && Precedes(visited[m].parents, p.Digest(), q.Digest())));
    InRange(v, visited, p, m);
    InRange(v, visited, q, n);
    ListedStays(v, visited, x, p, m);
    ListedStays(v, visited, x, q, n);
    assert (visited + [x])[m] == visited[m];
  }

  lemma InRange(v: set<Certificate>, xs: seq<Certificate>, p: Certificate, m: nat)
    requires ListedAt(v, xs, p, m)
    ensures m < |xs|
  {
  }

  /** A certificate pushed for `x` is listed by `x` first. */
  lemma ListedNow(v: set<Certificate>, visited: seq<Certificate>, x: Certificate, c: Certificate)
    requires ChildIn(v, x, c) && forall y :: y in visited ==> !ChildIn(v, y, c)
    ensures ListedAt(v, visited + [x], c, |visited|)
  {
    var xs := visited + [x];
    assert xs[|visited|] == x && forall i :: 0 <= i < |visited| ==> xs[i] == visited[i];
  }

  lemma StackedStep(v: set<Certificate>, visited: seq<Certificate>, below: seq<Certificate>, x: Certificate,
                    pushed: seq<Certificate>)
    requires Stacked(v, visited, below) && InOrderListed(x.parents, pushed)
    requires forall c :: c in pushed ==> ChildIn(v, x, c) && forall y :: y in visited ==> !ChildIn(v, y, c)
    ensures Stacked(v, visited + [x], below + pushed)
  {
    hide ListedAt, Precedes, ChildIn, InOrderListed;
    var stack, xs, b := below + pushed, visited + [x], |below|;
    forall c | c in pushed
      ensures ListedAt(v, xs, c, |visited|)
    {
      ListedNow(v, visited, x, c);
    }
    forall i | 0 <= i < |stack|
      ensures Listed(v, xs, stack[i])
    {
      if i < b {
        var m: nat :| ListedAt(v, visited, below[i], m);
        InRange(v, visited, below[i], m);
        ListedStays(v, visited, x, below[i], m);
      } else {
        assert stack[i] == pushed[i - b] && stack[i] in pushed;
      }
    }
    forall i, j | 0 <= i < j < |stack|
      ensures ListedLater(v, xs, stack[i], stack[j])
    {
      if j < b {
        LaterStays(v, visited, x, below[i], below[j]);
      } else if i < b {
        assert stack[j] == pushed[j - b] && stack[j] in pushed;
        var m: nat :| ListedAt(v, visited, below[i], m);
        InRange(v, visited, below[i], m);
        ListedStays(v, visited, x, below[i], m);
      } else {
        PushedLater(v, visited, x, pushed, i - b, j - b);
      }
    }
  }

  lemma PushedLater(v: set<Certificate>, visited: seq<Certificate>, x: Certificate, pushed: seq<Certificate>, i: nat, j: nat)
    requires i < j < |pushed| && InOrderListed(x.parents, pushed)
    requires ListedAt(v, visited + [x], pushed[i], |visited|) && ListedAt(v, visited + [x], pushed[j], |visited|)
    ensures ListedLater(v, visited + [x], pushed[i], pushed[j])
  {
    hide ListedAt, Precedes;
    assert (visited + [x])[|visited|] == x;
  }

  /** The top of the stack is the newest. */
  lemma TopIsNewest(v: set<Certificate>, leader: Certificate, visited: seq<Certificate>, below: seq<Certificate>, x: Certificate,
                    marked: set<Digest>)
    requires Searching(v, leader, Members(visited), below + [x], marked) && Stacked(v, visited, below + [x])
    ensures Newest(v, visited, x)
  {
    hide ListedLater, ChildIn;
    var stack := below + [x];
    assert stack[|below|] == x && x in stack;
    assert x !in Members(visited);
    forall p | Listed(v, visited, p) && p !in visited && p != x
      ensures ListedLater(v, visited, p, x)
    {
      ListedIsMarked(v, leader, visited, stack, marked, p);
      var i :| 0 <= i < |stack| && stack[i] == p;
      assert i < |below|;
      assert ListedLater(v, visited, stack[i], stack[|below|]);
    }
  }

  lemma ListedIsMarked(v: set<Certificate>, leader: Certificate, visited: seq<Certificate>, stack: seq<Certificate>,
                       marked: set<Digest>, p: Certificate)
    requires Searching(v, leader, Members(visited), stack, marked) && Listed(v, visited, p) && p !in visited
    ensures p in stack
  {
    var m: nat :| ListedAt(v, visited, p, m);
    assert visited[m] in Members(visited) && ChildIn(v, visited[m], p);
    assert p.Digest() in marked && p in v;
    assert p !in Members(visited);
  }

  lemma {:induction false} SearchGoesOn(v: set<Certificate>, leader: Certificate, visited: seq<Certificate>,
                                        stack: seq<Certificate>, marked: set<Digest>, all: seq<Certificate>)
    requires Layered(v, leader) && Searching(v, leader, Members(visited), stack, marked) && Stacked(v, visited, stack)
    requires all == visited + Dfs(v, stack, marked)
    ensures forall k :: |visited| <= k < |all| ==> Newest(v, all[..k], all[k])
    decreases |Unmarked(v, marked)|, |stack|
  {
    hide Searching, Stacked, Newest, Layered;
    if stack != [] {
      var x, below := stack[|stack| - 1], stack[..|stack| - 1];
      assert stack == below + [x];
      TopIsNewest(v, leader, visited, below, x, marked);
      StackedBelow(v, visited, below, x);
      var pushed := Pop(v, leader, visited, below, x, marked);
      var (st, mk) := PushParents(v, x, x.parents, below, marked);
      assert all == visited + [x] + Dfs(v, st, mk);
      SearchGoesOn(v, leader, visited + [x], st, mk, all);
      assert all[..|visited|] == visited && all[|visited|] == x;
    }
  }

  /** One turn of the outer loop keeps the stack in the order of listing. */
  lemma Pop(v: set<Certificate>, leader: Certificate, visited: seq<Certificate>, below: seq<Certificate>, x: Certificate,
            marked: set<Digest>)
    returns (pushed: seq<Certificate>)
    requires Layered(v, leader) && Searching(v, leader, Members(visited), below + [x], marked)
    requires Stacked(v, visited, below)
    ensures var (st, mk) := PushParents(v, x, x.parents, below, marked);
            && st == below + pushed
            && Searching(v, leader, Members(visited + [x]), st, mk) && Stacked(v, visited + [x], st)
  {
    assert Members(visited + [x]) == Members(visited) + {x};
    pushed := PushParentsAdds(v, x, x.parents, below, marked);
    var listed := PushedInOrder(v, x, x.parents, below, marked);
    assert (below + pushed)[|below|..] == pushed && (below + listed)[|below|..] == listed;
    var mk := PushParents(v, x, x.parents, below, marked).1;
    SearchStep(v, leader, Members(visited), below, x, pushed, marked, mk);
    forall c, y | c in pushed && y in visited
      ensures !ChildIn(v, y, c)
    {
      assert y in Members(visited);
    }
    hide Searching, Layered, Stacked, InOrderListed;
    StackedStep(v, visited, below, x, pushed);
  }

  /**
   * The search starts at the leader, and each certificate it visits next is, of those listed as parents by the visited ones
   * and not visited yet, the one listed last. Together with `DfsVisits` this leaves no choice.
   */
  lemma SearchIsDepthFirst(v: set<Certificate>, leader: Certificate)
    requires Layered(v, leader)
    ensures var xs := Dfs(v, [leader], {});
            && xs != [] && xs[0] == leader
            && forall k :: 1 <= k < |xs| ==> Newest(v, xs[..k], xs[k])
  {
    hide Newest, Searching, Stacked, Layered;
    StartSearching(v, leader);
    var stack: seq<Certificate> := [leader];
    var none: seq<Certificate> := [];
    assert stack[..0] == none && none + [leader] == stack && Members(none) == {};
    NothingStacked(v, none);
    var pushed := Pop(v, leader, none, none, leader, {});
    var (st, mk) := PushParents(v, leader, leader.parents, none, {});
    assert none + [leader] == stack;
    var xs := Dfs(v, stack, {});
    assert xs == stack + Dfs(v, st, mk);
    SearchGoesOn(v, leader, stack, st, mk, xs);
  }

  lemma NothingStacked(v: set<Certificate>, visited: seq<Certificate>)
    ensures Stacked(v, visited, [])
  {
  }

  lemma StackedBelow(v: set<Certificate>, visited: seq<Certificate>, below: seq<Certificate>, x: Certificate)
    requires Stacked(v, visited, below + [x])
    ensures Stacked(v, visited, below)
  {
    hide Listed, ListedLater;
    assert forall i :: 0 <= i < |below| ==> (below + [x])[i] == below[i];
  }

  lemma StartSearching(v: set<Certificate>, leader: Certificate)
    ensures Searching(v, leader, {}, [leader], {})
  {
  }

  /**
   * The exact order of a flattened sub-DAG: lower rounds first, and within a round the order of the search, which is depth
   * first from the parent listed last.
   */
  lemma FlattenedInSearchOrder(s: State, leader: Certificate, gcDepth: Round, r: Round)
    requires Layered(Visible(s), leader)
    ensures ByRound(OrderDag(s, leader, gcDepth))
    ensures var xs := Dfs(Visible(s), [leader], {});
            && InRound(OrderDag(s, leader, gcDepth), r) == (if s.lastCommittedRound <= r + gcDepth then InRound(xs, r) else [])
            && xs != [] && xs[0] == leader
            && forall k :: 1 <= k < |xs| ==> Newest(Visible(s), xs[..k], xs[k])
  {
    hide Newest, Layered;
    var xs := Dfs(Visible(s), [leader], {});
    SearchIsDepthFirst(Visible(s), leader);
    SortByRoundSorts(AboveHorizon(xs, s.lastCommittedRound, gcDepth));
    SortIsStable(AboveHorizon(xs, s.lastCommittedRound, gcDepth), r);
    HorizonCutsRounds(xs, s.lastCommittedRound, gcDepth, r);
  }
}
