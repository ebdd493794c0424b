/** The commit engine as the code runs it: fields updated in place, a map of maps for the DAG, loops for the searches. */
module ConsensusNode {
  import opened Collections
  import opened Committees
  import opened Dags
  import opened Retention
  import opened Commits
  import E = Engine

  type Dag = map<Round, map<Key, Certificate>>

  /** Each certificate sits in the row of its round, under its author. */
  ghost predicate WellFormed(dag: Dag) {
    forall r, k :: r in dag && k in dag[r] ==> dag[r][k].author == k && dag[r][k].round == r
  }

  ghost function Certs(dag: Dag): set<Certificate> {
    set r, k | r in dag && k in dag[r] :: dag[r][k]
  }

  lemma InCerts(dag: Dag, c: Certificate)
    requires WellFormed(dag)
    ensures c in Certs(dag) <==> c.round in dag && c.author in dag[c.round] && dag[c.round][c.author] == c
  {
  }

  class State {
    var lastCommittedRound: Round
    var lastCommitted: map<Key, Round>
    var dag: Dag
    var resolvedFallbackRounds: set<Round>

    ghost function Value(): E.State
      reads this
    {
      E.State(lastCommittedRound, lastCommitted, Certs(dag), resolvedFallbackRounds)
    }

    constructor (committee: Committee)
      requires committee.Valid()
      ensures WellFormed(dag) && Value() == E.InitialState(committee)
    {
      var genesis := map k | k in committee.keys :: GenesisOf(k);
      lastCommittedRound := 0;
      lastCommitted := map k | k in genesis :: genesis[k].round;
      dag := map[0 := genesis];
      resolvedFallbackRounds := {};
      new;
      forall c
        ensures c in Certs(dag) <==> c in Genesis(committee)
      {
        InCerts(dag, c);
      }
      assert lastCommitted == E.InitialState(committee).lastCommitted;
    }

    method Insert(certificate: Certificate)
      requires WellFormed(dag)
      modifies this
      ensures WellFormed(dag) && Value() == E.Insert(old(Value()), certificate)
      ensures certificate.round in dag
    {
      var r := certificate.round;
      var row: map<Key, Certificate> := if r in dag then dag[r] else map[];
      dag := dag[r := row[certificate.author := certificate]];
      forall c
        ensures c in Certs(dag) <==> c == certificate || (c in Certs(old(dag)) && !SameSlot(c, certificate))
      {
        InCerts(dag, c);
        InCerts(old(dag), c);
      }
    }

    /** The highest round in `lastCommitted`. */
    method MaxCommitted() returns (m: Round)
      requires lastCommitted.Keys != {}
      ensures m == E.MaxOf(lastCommitted.Values)
    {
      var left := lastCommitted.Keys;
      m := 0;
      while left != {}
        invariant left <= lastCommitted.Keys
        invariant forall k :: k in lastCommitted && k !in left ==> lastCommitted[k] <= m
        invariant m == 0 || exists k :: k in lastCommitted && lastCommitted[k] == m
        decreases left
      {
        var k :| k in left;
        if m < lastCommitted[k] {
          m := lastCommitted[k];
        }
        left := left - {k};
      }
      var k :| k in lastCommitted;
      assert lastCommitted[k] in lastCommitted.Values;
      if m != 0 {
        assert m in lastCommitted.Values;
      }
    }

    /** Records a committed certificate and drops what it makes unreachable. */
    method Update(certificate: Certificate, gcDepth: Round)
      requires WellFormed(dag)
      modifies this
      ensures WellFormed(dag) && Value() == E.Update(old(Value()), certificate, gcDepth)
    {
      var author := certificate.author;
      if author in lastCommitted {
        var r := lastCommitted[author];
        lastCommitted := lastCommitted[author := if certificate.round <= r then r else certificate.round];
      } else {
        lastCommitted := lastCommitted[author := certificate.round];
      }
      assert author in lastCommitted.Keys;
      lastCommittedRound := MaxCommitted();
      Prune(gcDepth);
    }

    /** Thins the DAG for one authority after the other. */
    method Prune(gcDepth: Round)
      requires WellFormed(dag) && lastCommitted.Keys != {}
      modifies this`dag
      ensures WellFormed(dag)
      ensures Certs(dag) == set x | x in Certs(old(dag)) && E.Kept(lastCommitted, lastCommittedRound, gcDepth, x)
    {
      var left := lastCommitted.Keys;
      while left != {}
        invariant left <= lastCommitted.Keys && WellFormed(dag)
        invariant Swept(Certs(old(dag)), Certs(dag), lastCommitted, lastCommitted.Keys - left, lastCommittedRound, gcDepth)
        decreases left
      {
        var name :| name in left;
        ghost var was := dag;
        dag := RetainOne(dag, name, lastCommitted[name], lastCommittedRound, gcDepth);
        SweepOne(Certs(old(dag)), was, lastCommitted, lastCommitted.Keys - left, name, lastCommittedRound, gcDepth);
        assert lastCommitted.Keys - (left - {name}) == lastCommitted.Keys - left + {name};
        left := left - {name};
      }
    }
  }

  /** `after` is `before` thinned for the authorities `done`, and cut at the horizon once there is one. */
  ghost predicate Swept(before: set<Certificate>, after: set<Certificate>, lc: map<Key, Round>, done: set<Key>,
                        lcr: Round, gcDepth: Round) {
    forall c :: c in after <==>
      && c in before
      && (c.author in done && c.author in lc ==> lc[c.author] <= c.round)
      && (done != {} ==> lcr <= c.round + gcDepth)
  }

  lemma SweepOne(before: set<Certificate>, dag: Dag, lc: map<Key, Round>, done: set<Key>, name: Key,
                 lcr: Round, gcDepth: Round)
    requires WellFormed(dag) && name in lc && Swept(before, Certs(dag), lc, done, lcr, gcDepth)
    ensures WellFormed(RetainOne(dag, name, lc[name], lcr, gcDepth))
    ensures Swept(before, Certs(RetainOne(dag, name, lc[name], lcr, gcDepth)), lc, done + {name}, lcr, gcDepth)
  {
    forall c
      ensures c in Certs(RetainOne(dag, name, lc[name], lcr, gcDepth)) <==>
              c in Certs(dag) && (c.author == name ==> lc[name] <= c.round) && lcr <= c.round + gcDepth
    {
      RetainOneExact(dag, name, lc[name], lcr, gcDepth, c);
    }
    RetainOneExact(dag, name, lc[name], lcr, gcDepth, GenesisOf(name));
  }

  function RetainRow(row: map<Key, Certificate>, r: Round, name: Key, round: Round): map<Key, Certificate> {
    map n | n in row && (n != name || round <= r) :: row[n]
  }

  /** One pass of `retain` over the DAG: thins every row for `name`, then drops empty rows and rows beyond the horizon. */
  function RetainOne(dag: Dag, name: Key, round: Round, lcr: Round, gcDepth: Round): Dag {
    map r | r in dag && RetainRow(dag[r], r, name, round).Keys != {} && lcr <= r + gcDepth :: RetainRow(dag[r], r, name, round)
  }

  lemma RetainOneExact(dag: Dag, name: Key, round: Round, lcr: Round, gcDepth: Round, c: Certificate)
    requires WellFormed(dag)
    ensures WellFormed(RetainOne(dag, name, round, lcr, gcDepth))
    ensures c in Certs(RetainOne(dag, name, round, lcr, gcDepth)) <==>
            c in Certs(dag) && (c.author == name ==> round <= c.round) && lcr <= c.round + gcDepth
  {
    var after := RetainOne(dag, name, round, lcr, gcDepth);
    InCerts(dag, c);
    InCerts(after, c);
    if c in Certs(dag) && (c.author == name ==> round <= c.round) && lcr <= c.round + gcDepth {
      assert c.author in RetainRow(dag[c.round], c.round, name, round).Keys;
    }
  }

  /** The rows a search from round `high` down to round `low` reads are all there. */
  ghost predicate RowsBetween(dag: Dag, low: Round, high: Round) {
    forall r :: low <= r < high ==> r in dag
  }

  class Consensus {
    const committee: Committee
    const gcDepth: Round
    const dynamic: bool
    const state: State
    // The two output channels carry the same certificates.
    var output: seq<Certificate>

    // What was delivered, and the history of the node as the engine's functions record it.
    ghost var log: seq<Certificate>
    ghost var leaders: seq<Certificate>
    ghost var waves: seq<Round>

    ghost function Config(): E.Config {
      E.Config(committee, gcDepth, dynamic, 1)
    }

    ghost function Node(): E.Node
      reads this, state
    {
      E.Node(state.Value(), leaders, output, waves)
    }

    /** `u` holds every certificate of the system; the node is where the deliveries of `log` lead. */
    ghost predicate Valid(u: set<Certificate>)
      reads this, state
    {
      && GoodDag(committee, u)
      && WellFormed(state.dag)
      && E.Causal(committee, u, log)
      && Node() == E.Run(Config(), log)
    }

    constructor (committee: Committee, gcDepth: Round, dynamic: bool, ghost u: set<Certificate>)
      requires GoodDag(committee, u)
      ensures this.committee == committee && this.gcDepth == gcDepth && this.dynamic == dynamic
      ensures fresh(state) && Valid(u) && log == [] && output == []
    {
      this.committee, this.gcDepth, this.dynamic := committee, gcDepth, dynamic;
      state := new State(committee);
      output := [];
      log, leaders, waves := [], [], [];
    }

    // ----- Look-ups -----

    function At(dag: Dag, r: Round, k: Key): Option<Certificate> {
      if r in dag && k in dag[r] then Some(dag[r][k]) else None
    }

    lemma AtIsLookup(dag: Dag, r: Round, k: Key)
      requires WellFormed(dag)
      ensures At(dag, r, k) == E.Lookup(Certs(dag), k, r)
    {
      var found := E.Lookup(Certs(dag), k, r);
      if found.Some? {
        InCerts(dag, found.value);
      }
      if r in dag && k in dag[r] {
        InCerts(dag, dag[r][k]);
      }
    }

    function Leader(round: Round, dag: Dag): Option<Certificate>
      requires committee.Valid()
    {
      At(dag, round, committee.Leader(round))
    }

    function FallbackLeader(first: Round, dag: Dag): Option<Certificate>
      requires committee.Valid()
    {
      match E.FallbackKey(committee, first)
      case None => None
      case Some(k) => At(dag, first, k)
    }

    // ----- Searches -----

    /** Whether there is a path from `leader` down to `prev`. Panics unless every row in between is present. */
    method Linked(leader: Certificate, prev: Certificate, dag: Dag) returns (b: bool)
      requires WellFormed(dag) && RowsBetween(dag, prev.round, leader.round)
      ensures b <==> E.Linked(Certs(dag), leader, prev)
    {
      hide E.Level, Certs;
      LevelStart(Certs(dag), leader);
      var parents := {leader};
      var r := leader.round;
      while prev.round < r
        invariant prev.round <= r || r == leader.round
        invariant r <= leader.round && parents == E.Level(Certs(dag), leader, r)
        decreases r
      {
        r := r - 1;
        var row := dag[r];
        ghost var above := parents;
        parents := set k | k in row && exists x :: x in parents && row[k].Digest() in x.parents :: row[k];
        RowLevel(dag, leader, r, row, above, parents);
      }
      LevelAbove(Certs(dag), leader, r, prev.round);
      b := exists z :: z in parents && z.Digest() == prev.Digest();
    }

    lemma LevelStart(dag: set<Certificate>, leader: Certificate)
      ensures E.Level(dag, leader, leader.round) == {leader}
    {
    }

    lemma LevelAbove(dag: set<Certificate>, leader: Certificate, r: Round, low: Round)
      requires r == low || (r == leader.round && r <= low)
      ensures E.Level(dag, leader, low) == E.Level(dag, leader, r)
    {
    }

    lemma RowLevel(dag: Dag, leader: Certificate, r: Round, row: map<Key, Certificate>,
                   above: set<Certificate>, parents: set<Certificate>)
      requires WellFormed(dag) && r in dag && row == dag[r] && r < leader.round
      requires above == E.Level(Certs(dag), leader, r + 1)
      requires parents == set k | k in row && (exists x :: x in above && row[k].Digest() in x.parents) :: row[k]
      ensures parents == E.Level(Certs(dag), leader, r)
    {
      forall c
        ensures c in parents <==> c in E.Level(Certs(dag), leader, r)
      {
        InCerts(dag, c);
        if c in parents {
          var k :| k in row && (exists x :: x in above && row[k].Digest() in x.parents) && row[k] == c;
          var x :| x in above && c.Digest() in x.parents;
          assert Edge(x, c);
        }
        if c in E.Level(Certs(dag), leader, r) {
          var y :| y in above && Edge(y, c);
          assert row[c.author] == c;
        }
      }
    }

    /** The past leaders to commit with `leader`, latest first. */
    method OrderLeaders(leader: Certificate) returns (toCommit: seq<Certificate>)
      requires committee.Valid() && WellFormed(state.dag)
      requires RowsBetween(state.dag, state.lastCommittedRound + 2, leader.round)
      ensures toCommit == E.OrderLeaders(Config(), state.Value(), leader)
    {
      toCommit := [leader];
      var current := leader;
      var low := state.lastCommittedRound + 2;
      ghost var dag := Certs(state.dag);
      var r: int := leader.round - 1;
      while low <= r
        invariant r < leader.round && current.round <= leader.round
        invariant toCommit + E.Walk(committee, dag, E.RoundsDown(r, low), current)
                  == [leader] + E.Walk(committee, dag, E.RoundsDown(leader.round - 1, low), leader)
        decreases r
      {
        assert E.RoundsDown(r, low) == [r] + E.RoundsDown(r - 2, low);
        AtIsLookup(state.dag, r, committee.Leader(r));
        var found := Leader(r, state.dag);
        if found.Some? {
          var prev := found.value;
          var linked := Linked(current, prev, state.dag);
          if linked {
            assert toCommit + ([prev] + E.Walk(committee, dag, E.RoundsDown(r - 2, low), prev))
                   == toCommit + [prev] + E.Walk(committee, dag, E.RoundsDown(r - 2, low), prev);
            toCommit := toCommit + [prev];
            current := prev;
          }
        }
        r := r - 2;
      }
      assert E.RoundsDown(r, low) == [];
      assert toCommit + [] == toCommit;
    }

    /** Flattens the sub-DAG of `leader`. */
    method OrderDag(leader: Certificate) returns (ordered: seq<Certificate>)
      requires WellFormed(state.dag)
      ensures ordered == E.OrderDag(state.Value(), leader, gcDepth)
    {
      ghost var v := E.Visible(state.Value());
      ordered := [];
      var alreadyOrdered: set<Digest> := {};
      var buffer := [leader];
      while buffer != []
        invariant ordered + E.Dfs(v, buffer, alreadyOrdered) == E.Dfs(v, [leader], {})
        decreases |E.Unmarked(v, alreadyOrdered)|, |buffer|
      {
        var x := buffer[|buffer| - 1];
        ghost var below := buffer[..|buffer| - 1];
        ghost var marked := alreadyOrdered;
        ghost var pushed := E.PushParents(v, x, x.parents, below, marked);
        assert ordered + ([x] + E.Dfs(v, pushed.0, pushed.1)) == ordered + [x] + E.Dfs(v, pushed.0, pushed.1);
        buffer := buffer[..|buffer| - 1];
        ordered := ordered + [x];
        var i := 0;
        while i < |x.parents|
          invariant 0 <= i <= |x.parents|
          invariant E.PushParents(v, x, x.parents[i..], buffer, alreadyOrdered) == pushed
        {
          var parent := x.parents[i];
          assert x.parents[i..][0] == parent && x.parents[i..][1..] == x.parents[i + 1..];
          var found := FindInRow(x.round, parent);
          ParentIsVisible(v, x, parent);
          if found.Some? {
            var certificate := found.value;
            var skip := parent in alreadyOrdered;
            skip := skip || (certificate.author in state.lastCommitted && state.lastCommitted[certificate.author] == certificate.round);
            if !skip {
              buffer := buffer + [certificate];
              alreadyOrdered := alreadyOrdered + {parent};
            }
          }
          i := i + 1;
        }
        assert x.parents[i..] == [];
      }
      assert ordered + [] == ordered;
      ordered := E.AboveHorizon(ordered, state.lastCommittedRound, gcDepth);
      ordered := E.SortByRound(ordered);
    }

    /** The certificate with digest `d` in the row below round `r`. */
    function FindInRow(r: Round, d: Digest): Option<Certificate>
      reads state
    {
      if 0 < r && r - 1 in state.dag && d.origin in state.dag[r - 1] && state.dag[r - 1][d.origin].Digest() == d
      then Some(state.dag[r - 1][d.origin])
      else None
    }

    lemma ParentIsVisible(v: set<Certificate>, x: Certificate, d: Digest)
      requires WellFormed(state.dag) && v == E.Visible(state.Value())
      ensures var found := FindInRow(x.round, d);
              E.FindParent(v, x, d) == if found.Some? && !E.Skipped(state.Value(), found.value) then found else None
    {
      var found := FindInRow(x.round, d);
      var p := E.FindParent(v, x, d);
      if p.Some? {
        InCerts(state.dag, p.value);
      }
      if found.Some? {
        InCerts(state.dag, found.value);
      }
    }
  
    // ----- One delivered certificate -----

    /** The stake of the certificates of `round` that back `leader`: by descent in adversary mode, else as direct children. */
    method SupportStake(round: Round, leader: Certificate) returns (stake: nat)
      requires committee.Valid() && WellFormed(state.dag) && round in state.dag
      requires dynamic ==> RowsBetween(state.dag, leader.round, round)
      ensures stake == committee.Weight(Authors(E.Support(Config(), Certs(state.dag), round, leader)))
    {
      var row := state.dag[round];
      var left := row.Keys;
      ghost var backers := Authors(E.Support(Config(), Certs(state.dag), round, leader));
      BackersInRow(round, leader);
      stake := 0;
      committee.WeightEmpty({});
      assert backers * (row.Keys - left) == {};
      while left != {}
        invariant left <= row.Keys && stake == committee.Weight(backers * (row.Keys - left))
        decreases left
      {
        var k :| k in left;
        var x := row[k];
        var backs;
        if dynamic {
          backs := Linked(x, leader, state.dag);
        } else {
          backs := leader.Digest() in x.parents;
        }
        assert backs <==> k in backers;
        ghost var done := row.Keys - left;
        if backs {
          assert backers * (row.Keys - (left - {k})) == backers * done + {k};
          committee.WeightInsert(backers * done, k);
          stake := stake + committee.Stake(x.author);
        } else {
          assert backers * (row.Keys - (left - {k})) == backers * done;
        }
        left := left - {k};
      }
      assert backers * (row.Keys - left) == backers;
    }

    lemma BackersInRow(round: Round, leader: Certificate)
      requires WellFormed(state.dag) && round in state.dag
      ensures var dag := Certs(state.dag);
              var backers := Authors(E.Support(Config(), dag, round, leader));
              && backers <= state.dag[round].Keys
              && (forall k :: k in state.dag[round] ==>
                   (k in backers <==> if dynamic then E.Linked(dag, state.dag[round][k], leader) else Edge(state.dag[round][k], leader)))
    {
      var dag := Certs(state.dag);
      var support := E.Support(Config(), dag, round, leader);
      var backers := Authors(support);
      forall k | k in backers
        ensures k in state.dag[round] && state.dag[round][k] in support
      {
        var c :| c in support && c.author == k;
        InCerts(state.dag, c);
      }
      forall k | k in state.dag[round]
        ensures k in backers <==> if dynamic then E.Linked(dag, state.dag[round][k], leader) else Edge(state.dag[round][k], leader)
      {
        var c := state.dag[round][k];
        InCerts(state.dag, c);
        if c in support {
          assert c.author in backers;
        }
      }
    }

    /** The stake of all certificates of `round` in memory. */
    method RowStake(round: Round) returns (stake: nat)
      requires committee.Valid() && WellFormed(state.dag)
      ensures stake == committee.Weight(Authors(AtRound(Certs(state.dag), round)))
    {
      ghost var authors := Authors(AtRound(Certs(state.dag), round));
      RowAuthors(round);
      stake := 0;
      committee.WeightEmpty({});
      if round in state.dag {
        var row := state.dag[round];
        var left := row.Keys;
        assert row.Keys - left == {};
        while left != {}
          invariant left <= row.Keys && stake == committee.Weight(row.Keys - left)
          decreases left
        {
          var k :| k in left;
          assert row.Keys - (left - {k}) == row.Keys - left + {k};
          committee.WeightInsert(row.Keys - left, k);
          stake := stake + committee.Stake(row[k].author);
          left := left - {k};
        }
        assert row.Keys - left == authors;
      }
    }

    lemma RowAuthors(round: Round)
      requires WellFormed(state.dag)
      ensures Authors(AtRound(Certs(state.dag), round)) == if round in state.dag then state.dag[round].Keys else {}
    {
      var s := AtRound(Certs(state.dag), round);
      forall k
        ensures k in Authors(s) <==> round in state.dag && k in state.dag[round]
      {
        if k in Authors(s) {
          var c :| c in s && c.author == k;
          InCerts(state.dag, c);
        }
        if round in state.dag && k in state.dag[round] {
          InCerts(state.dag, state.dag[round][k]);
          assert state.dag[round][k] in s;
        }
      }
    }
  
    /** Commits each leader with its sub-DAG, the earliest leader first. */
    method CommitAll(toCommit: seq<Certificate>) returns (sequence: seq<Certificate>)
      requires WellFormed(state.dag)
      modifies state
      ensures WellFormed(state.dag)
      ensures (state.Value(), sequence) == E.CommitLeaders(old(state.Value()), toCommit, gcDepth)
    {
      hide E.OrderDag, E.UpdateAll;
      sequence := [];
      var i := |toCommit|;
      ghost var start := state.Value();
      assert toCommit[..i] == toCommit;
      assert [] + E.CommitLeaders(start, toCommit, gcDepth).1 == E.CommitLeaders(start, toCommit, gcDepth).1;
      while 0 < i
        invariant 0 <= i <= |toCommit| && WellFormed(state.dag)
        invariant var rest := E.CommitLeaders(state.Value(), toCommit[..i], gcDepth);
                  (rest.0, sequence + rest.1) == E.CommitLeaders(start, toCommit, gcDepth)
      {
        ghost var was := sequence;
        var xs := OrderDag(toCommit[i - 1]);
        assert toCommit[..i][..i - 1] == toCommit[..i - 1];
        ghost var before := state.Value();
        CommitLeadersUnfold(before, toCommit[..i], gcDepth);
        ApplyAll(xs);
        sequence := sequence + xs;
        i := i - 1;
        ghost var rest := E.CommitLeaders(state.Value(), toCommit[..i], gcDepth);
        assert was + (xs + rest.1) == sequence + rest.1;
      }
      assert toCommit[..0] == [] && sequence + [] == sequence;
    }

    method ApplyAll(xs: seq<Certificate>)
      requires WellFormed(state.dag)
      modifies state
      ensures WellFormed(state.dag) && state.Value() == E.UpdateAll(old(state.Value()), xs, gcDepth)
    {
      var i := 0;
      while i < |xs|
        invariant 0 <= i <= |xs| && WellFormed(state.dag)
        invariant E.UpdateAll(state.Value(), xs[i..], gcDepth) == E.UpdateAll(old(state.Value()), xs, gcDepth)
      {
        assert xs[i..][0] == xs[i] && xs[i..][1..] == xs[i + 1..];
        state.Update(xs[i], gcDepth);
        i := i + 1;
      }
      assert xs[i..] == [];
    }

    /** Below a certificate just stored every row from the last committed round up is present. */
    lemma RowsPresent(u: set<Certificate>, before: seq<Certificate>, certificate: Certificate)
      requires GoodDag(committee, u) && WellFormed(state.dag)
      requires E.Causal(committee, u, before + [certificate])
      requires state.Value() == E.Insert(E.Run(Config(), before).s, certificate)
      ensures forall r :: state.lastCommittedRound <= r <= certificate.round ==> r in state.dag
      ensures Certs(state.dag) <= u
    {
      var log := before + [certificate];
      assert log[..|log| - 1] == before && log[|log| - 1] == certificate;
      var n := E.Run(Config(), before);
      var delivered := E.Delivered(committee, before);
      var committed := Genesis(committee) + Members(n.out);
      RunSound(Config(), u, before);
      InvInsert(committee, gcDepth, u, delivered, committed, n.s, certificate);
      InvBasics(committee, gcDepth, u, delivered + {certificate}, committed, state.Value());
      forall r | state.lastCommittedRound <= r <= certificate.round
        ensures r in state.dag
      {
        RowPresent(committee, gcDepth, u, delivered + {certificate}, committed, state.Value(), certificate, r);
        var c :| c in Certs(state.dag) && c.round == r;
        InCerts(state.dag, c);
      }
    }

    /** Whether storing a certificate of `round` lets a leader be committed, or a wave be given up. */
    method Decide(round: Round) returns (d: E.Decision)
      requires committee.Valid() && WellFormed(state.dag) && round in state.dag
      requires RowsBetween(state.dag, state.lastCommittedRound, round)
      ensures d == E.Decide(Config(), state.Value(), round)
    {
      hide E.FallbackAt, E.LeaderAt, E.Support, E.FallbackKey;
      var leaderRound: Round;
      if dynamic {
        if round < 5 || round % 4 != 1 { return E.Wait; }
        leaderRound := round - 3;
      } else {
        // At round 0 the unsigned subtraction wraps to an odd number.
        if round == 0 || (round - 1) % 2 != 0 || round - 1 < 2 { return E.Wait; }
        leaderRound := round - 1;
      }
      if leaderRound <= state.lastCommittedRound { return E.Wait; }
      if dynamic && leaderRound in state.resolvedFallbackRounds { return E.Wait; }
      if dynamic {
        var supportStake := RowStake(round);
        if supportStake < committee.QuorumThreshold() { return E.Wait; }
      }
      LeaderLookups(leaderRound);
      var selected := if dynamic then FallbackLeader(leaderRound, state.dag) else Leader(leaderRound, state.dag);
      if selected.None? {
        if dynamic { return E.Skip(leaderRound); } else { return E.Wait; }
      }
      var leader := selected.value;
      var stake := SupportStake(round, leader);
      var required := if dynamic then committee.QuorumThreshold() else committee.ValidityThreshold();
      if stake < required {
        if dynamic { return E.Skip(leaderRound); } else { return E.Wait; }
      }
      return E.Commit(leader);
    }

    /** The body of the main loop: one certificate from the primary. */
    method Deliver(certificate: Certificate, ghost u: set<Certificate>)
      requires Valid(u)
      requires certificate in u && forall y :: y in u && Edge(certificate, y) ==> y in E.Delivered(committee, log)
      modifies this, state
      ensures Valid(u) && log == old(log) + [certificate]
      ensures old(output) <= output
    {
      hide E.Decide, E.OrderLeaders, E.CommitLeaders, E.Insert, GoodDag, E.Run, E.Causal, E.Reversed, Certs, WellFormed;
      GoodUnique(committee, u);
      ghost var n := Node();
      ghost var before := log;
      Extends(u, before, certificate);
      log := log + [certificate];
      state.Insert(certificate);
      RowsPresent(u, before, certificate);
      ghost var s := state.Value();
      var decision := Decide(certificate.round);
      match decision
      case Wait =>
      case Skip(round) =>
        SkipsOnlyInWaves(Config(), s, certificate.round);
        state.resolvedFallbackRounds := state.resolvedFallbackRounds + {round};
        waves := waves + [round];
      case Commit(leader) =>
        DecideCommits(Config(), s, certificate.round);
        var toCommit;
        if dynamic {
          state.resolvedFallbackRounds := state.resolvedFallbackRounds + {leader.round};
          waves := waves + [leader.round];
          toCommit := [leader];
        } else {
          toCommit := OrderLeaders(leader);
        }
        leaders := leaders + E.Reversed(toCommit);
        var sequence := CommitAll(toCommit);
        output := output + sequence;
    }

    lemma Extends(u: set<Certificate>, before: seq<Certificate>, certificate: Certificate)
      requires committee.Valid() && E.Causal(committee, u, before) && certificate in u
      requires forall y :: y in u && Edge(certificate, y) ==> y in E.Delivered(committee, before)
      ensures E.Causal(committee, u, before + [certificate])
      ensures E.Run(Config(), before + [certificate]) == E.Deliver(Config(), E.Run(Config(), before), certificate)
    {
      var log := before + [certificate];
      assert log[..|log| - 1] == before && log[|log| - 1] == certificate;
    }

    lemma SkipsOnlyInWaves(cfg: E.Config, s: E.State, round: Round)
      requires cfg.committee.Valid() && E.Decide(cfg, s, round).Skip?
      ensures cfg.dynamic
    {
    }

    lemma LeaderLookups(r: Round)
      requires committee.Valid() && WellFormed(state.dag)
      ensures Leader(r, state.dag) == E.LeaderAt(committee, Certs(state.dag), r)
      ensures FallbackLeader(r, state.dag) == E.FallbackAt(committee, Certs(state.dag), r)
      ensures Leader(r, state.dag).Some? ==> Leader(r, state.dag).value.round == r
      ensures FallbackLeader(r, state.dag).Some? ==> FallbackLeader(r, state.dag).value.round == r
    {
      AtIsLookup(state.dag, r, committee.Leader(r));
      if E.FallbackKey(committee, r).Some? {
        AtIsLookup(state.dag, r, E.FallbackKey(committee, r).value);
      }
    }
  }
}
