/** What every run of the proposer keeps, given what the core sends it. */
module ProposerSafety {
  import opened Collections
  import opened Committees
  import opened Dags
  import opened Messages
  import opened Aggregators
  import opened Proposing
  import Delivery

  /** A header over parents of the round below with a quorum of stake, in a round in which its author is not silent. */
  ghost predicate GoodHeader(p: Params, h: Header)
    requires p.committee.Valid()
  {
    && h.author == p.name && h.id == p.hash(h.author, h.round, h.payload, h.parents)
    && NoRepeats(h.parents) && Delivery.Grounded(p.committee, h)
    && p.name !in Adversary.Silent(Adversary.ScoreIn(p.score, h.round), p.committee.keys, p.faults, p.committee.Leader(h.round))
  }

  ghost predicate GoodHeaders(p: Params, made: seq<Header>, round: Round)
    requires p.committee.Valid()
  {
    && (forall h :: h in made ==> GoodHeader(p, h) && h.round <= round)
    && (forall i, j :: 0 <= i < j < |made| ==> made[i].round < made[j].round)
  }

  /** The parents in hand: all of the current round, none before the first batch of the round, then a quorum. */
  ghost predicate GoodParents(cm: Committee, s: Proposer, seen: set<Round>) {
    && (forall r :: r in seen ==> r <= s.round)
    && OfRound(s.lastParents, s.round)
    && (s.lastParents != [] ==> HasQuorum(cm, s.lastParents))
    && (s.round in seen ==> s.lastParents != [])
  }

  ghost predicate GoodAdvance(p: Params, s: Proposer)
    requires p.committee.Valid()
  {
    s.lastParents != [] ==>
      s.advance == if s.round % 2 == 0 then Find(s.lastParents, p.committee.Leader(s.round)).Some?
                   else EnoughVotes(p.committee, s.lastParents, s.lastLeader)
  }

  ghost predicate Inv(p: Params, s: Proposer, seen: set<Round>)
    requires p.committee.Valid()
  {
    && GoodHeaders(p, s.made, s.round) && GoodParents(p.committee, s, seen) && GoodAdvance(p, s)
    && s.silent == ComputeSilence(p, s.silenceRound)
  }

  lemma {:induction false} OnceExact<T>(xs: seq<T>)
    ensures NoRepeats(Once(xs)) && (forall x :: x in Once(xs) <==> x in xs)
    decreases |xs|
  {
    if xs != [] {
      OnceExact(xs[..|xs| - 1]);
      assert forall x :: x in xs <==> x in xs[..|xs| - 1] || x == xs[|xs| - 1];
    }
  }

  /** Counting stake digest by digest never gives less than the stake of the authors. */
  lemma {:induction false} StakeCoversAuthors(cm: Committee, ds: seq<Digest>)
    requires cm.Valid()
    ensures Delivery.StakeOf(cm, ds) >= cm.Weight(Delivery.Sources(ds))
  {
    if ds == [] {
      cm.WeightEmpty(Delivery.Sources(ds));
    } else {
      StakeCoversAuthors(cm, ds[1..]);
      assert forall d :: d in ds <==> d == ds[0] || d in ds[1..];
      var rest := Delivery.Sources(ds[1..]);
      if ds[0].origin in rest {
        assert Delivery.Sources(ds) == rest;
      } else {
        assert Delivery.Sources(ds) == rest + {ds[0].origin};
        cm.WeightInsert(rest, ds[0].origin);
      }
    }
  }

  lemma HeaderIsGood(p: Params, s: Proposer)
    requires p.committee.Valid() && s.lastParents != [] && 0 < s.round
    requires OfRound(s.lastParents, s.round - 1) && HasQuorum(p.committee, s.lastParents) && !ComputeSilence(p, s.round)
    ensures GoodHeader(p, NewHeader(p, s))
  {
    hide Committee.Weight, Committee.QuorumThreshold, Adversary.Selected;
    var ds := DigestsOf(s.lastParents);
    var parents := Once(ds);
    OnceExact(ds);
    assert ds[0] == s.lastParents[0].Digest() && ds[0] in ds;
    forall d | d in parents
      ensures d.round + 1 == s.round
    {
      var i :| 0 <= i < |ds| && ds[i] == d;
      assert s.lastParents[i] in s.lastParents;
    }
    assert Delivery.Sources(parents) == Origins(s.lastParents) by {
      forall c | c in s.lastParents
        ensures c.header.author in Delivery.Sources(parents)
      {
        var i :| 0 <= i < |s.lastParents| && s.lastParents[i] == c;
        assert ds[i] in parents;
      }
      forall d | d in parents
        ensures d.origin in Origins(s.lastParents)
      {
        var i :| 0 <= i < |ds| && ds[i] == d;
        assert s.lastParents[i] in s.lastParents;
      }
    }
    StakeCoversAuthors(p.committee, parents);
  }

  lemma HeadersGrow(p: Params, made: seq<Header>, round: Round, h: Header)
    requires p.committee.Valid() && GoodHeaders(p, made, round) && GoodHeader(p, h) && h.round == round + 1
    ensures GoodHeaders(p, made, round + 1) && GoodHeaders(p, made + [h], round + 1)
  {
    hide GoodHeader;
  }

  lemma HeadersStay(p: Params, made: seq<Header>, round: Round)
    requires p.committee.Valid() && GoodHeaders(p, made, round)
    ensures GoodHeaders(p, made, round + 1)
  {
    hide GoodHeader;
  }

  lemma AdvanceKeeps(p: Params, s: Proposer, seen: set<Round>)
    requires p.committee.Valid() && Inv(p, s, seen) && s.lastParents != []
    ensures Inv(p, Advance(p, s), seen)
  {
    hide GoodHeader, GoodHeaders, ComputeSilence, HasQuorum, OfRound, NewHeader, EnoughVotes, Find;
    var s1 := s.(round := s.round + 1);
    var s2 := if s1.silenceRound != s1.round then PrepareRound(p, s1, s1.round) else s1;
    NoParents(s2.round);
    HeadersStay(p, s.made, s.round);
    if !s2.silent {
      HeaderIsGood(p, s2);
      NewHeaderRound(p, s2);
      HeadersGrow(p, s.made, s.round, NewHeader(p, s2));
    }
  }

  lemma NewHeaderRound(p: Params, s: Proposer)
    ensures NewHeader(p, s).round == s.round
  {
  }

  lemma NoParents(r: Round)
    ensures OfRound([], r)
  {
  }

  lemma ReceiveKeeps(p: Params, s: Proposer, seen: set<Round>, e: Event)
    requires p.committee.Valid() && Inv(p, s, seen)
    requires e.ParentsIn? ==> OfRound(e.parents, e.round) && (e.round !in seen ==> HasQuorum(p.committee, e.parents))
    ensures Inv(p, Receive(p, s, e), seen + if e.ParentsIn? then {e.round} else {})
  {
    hide GoodHeader, ComputeSilence, EnoughVotes, Find, Committee.QuorumThreshold;
    if e.ParentsIn? {
      if e.round == s.round {
        QuorumExtends(p.committee, s.lastParents, e.parents);
      }
      if e.round !in seen {
        QuorumIsNotEmpty(p.committee, e.parents);
      }
    }
    hide HasQuorum;
  }

  lemma QuorumExtends(cm: Committee, cs: seq<Certified>, more: seq<Certified>)
    ensures HasQuorum(cm, cs) || HasQuorum(cm, more) ==> HasQuorum(cm, cs + more)
  {
    assert Origins(cs + more) == Origins(cs) + Origins(more);
    cm.WeightMonotone(Origins(cs), Origins(cs + more));
    cm.WeightMonotone(Origins(more), Origins(cs + more));
  }

  lemma QuorumIsNotEmpty(cm: Committee, cs: seq<Certified>)
    requires HasQuorum(cm, cs)
    ensures cs != []
  {
    if cs == [] {
      assert Origins(cs) == {};
      cm.WeightEmpty(Origins(cs));
    }
  }

  lemma {:induction false} GenesisQuorum(cm: Committee, ks: seq<Key>)
    ensures OfRound(GenesisCertificates(ks), 0) && |GenesisCertificates(ks)| == |ks|
    ensures forall k :: k in ks <==> k in Origins(GenesisCertificates(ks))
    ensures forall k :: k in ks ==> Find(GenesisCertificates(ks), k).Some?
  {
    if ks != [] {
      GenesisQuorum(cm, ks[1..]);
      assert forall k :: k in ks <==> k == ks[0] || k in ks[1..];
      var cs := GenesisCertificates(ks);
      assert cs[1..] == GenesisCertificates(ks[1..]);
      assert forall c :: c in cs <==> c == cs[0] || c in cs[1..];
      assert Origins(cs) == {ks[0]} + Origins(cs[1..]);
    }
  }

  lemma {:induction false} AllWeigh(cm: Committee, ks: seq<Key>, names: set<Key>)
    requires forall k :: k in ks ==> k in names
    ensures cm.WeightOf(ks, names) == cm.TotalOf(ks)
  {
    if ks != [] {
      AllWeigh(cm, ks[1..], names);
    }
  }

  lemma InvInitial(p: Params)
    requires p.committee.Valid() && 0 < p.committee.Total()
    ensures Inv(p, InitialProposer(p), {})
  {
    hide ComputeSilence, Committee.WeightOf, Committee.TotalOf;
    var cm := p.committee;
    GenesisQuorum(cm, cm.keys);
    AllWeigh(cm, cm.keys, Origins(GenesisCertificates(cm.keys)));
    assert cm.Leader(0) in cm.keys;
  }

  lemma {:induction false} RunKeeps(p: Params, turns: seq<Turn>)
    requires p.committee.Valid() && 0 < p.committee.Total() && QuorumFirst(p.committee, Batches(turns))
    ensures Inv(p, RunProposer(p, turns), Rounds(Batches(turns)))
    decreases |turns|
  {
    hide Inv, Advance, Receive, OfRound, HasQuorum, Ready;
    if turns == [] {
      assert Rounds(Batches(turns)) == {};
      InvInitial(p);
    } else {
      var before, t := turns[..|turns| - 1], turns[|turns| - 1];
      BatchesStep(p.committee, turns);
      RunKeeps(p, before);
      var seen := Rounds(Batches(before));
      var s := RunProposer(p, before);
      if Ready(p, s, t.timerExpired) {
        ReadyHasParents(p, s, t.timerExpired);
        AdvanceKeeps(p, s, seen);
        ReceiveKeeps(p, Advance(p, s), seen, t.event);
      } else {
        ReceiveKeeps(p, s, seen, t.event);
      }
    }
  }

  lemma ReadyHasParents(p: Params, s: Proposer, timerExpired: bool)
    requires Ready(p, s, timerExpired)
    ensures s.lastParents != []
  {
  }

  lemma BatchesStep(cm: Committee, turns: seq<Turn>)
    requires turns != [] && QuorumFirst(cm, Batches(turns))
    ensures var before, e := Batches(turns[..|turns| - 1]), turns[|turns| - 1].event;
            && QuorumFirst(cm, before)
            && Rounds(Batches(turns)) == Rounds(before) + (if e.ParentsIn? then {e.round} else {})
            && (e.ParentsIn? ==> OfRound(e.parents, e.round) && (e.round !in Rounds(before) ==> HasQuorum(cm, e.parents)))
  {
    hide OfRound, HasQuorum;
    var before, e := Batches(turns[..|turns| - 1]), turns[|turns| - 1].event;
    if e.ParentsIn? {
      assert Batches(turns)[..|before|] == before;
    } else {
      assert Batches(turns) == before;
    }
  }

  /**
   * Every header ever made lists parents that are all of the round below and hold a quorum; header rounds strictly
   * increase, so the author never equivocates; and none is made in a round the authority is to be silent in.
   */
  lemma HeadersAreGood(p: Params, turns: seq<Turn>)
    requires p.committee.Valid() && 0 < p.committee.Total() && QuorumFirst(p.committee, Batches(turns))
    ensures var made := RunProposer(p, turns).made;
            && (forall h :: h in made ==> GoodHeader(p, h))
            && (forall i, j :: 0 <= i < j < |made| ==> made[i].round < made[j].round)
  {
    RunKeeps(p, turns);
  }

  /**
   * A header made before the timer expires votes for the leader of the round below if that round is even; if it is odd,
   * its parents hold a quorum for the last leader known, or f+1 stake against, or no leader is known.
   */
  lemma HappyPath(p: Params, turns: seq<Turn>)
    requires p.committee.Valid() && 0 < p.committee.Total() && QuorumFirst(p.committee, Batches(turns))
    requires var s := RunProposer(p, turns); Ready(p, s, false) && |Advance(p, s).made| == |s.made| + 1
    ensures var s := RunProposer(p, turns); var h := NewHeader(p, s.(round := s.round + 1));
            && Advance(p, s).made == s.made + [h]
            && (s.round % 2 == 0 ==>
                  exists d :: d in h.parents && d.origin == p.committee.Leader(s.round) && d.round == s.round)
            && (s.round % 2 == 1 && s.lastLeader.Some? ==>
                  var (yes, no) := Tally(p.committee, s.lastParents, s.lastLeader.value.Digest());
                  2 * p.committee.Total() / 3 + 1 <= yes || (p.committee.Total() + 2) / 3 <= no)
  {
    hide QuorumFirst, Tally, GoodHeaders, GoodParents, HasQuorum, ComputeSilence, NewHeader, RunProposer, Rounds, Committee.Total;
    RunKeeps(p, turns);
    var s := RunProposer(p, turns);
    if s.round % 2 == 0 {
      LeaderListed(p, s, s.(round := s.round + 1), p.committee.Leader(s.round), Rounds(Batches(turns)));
    }
    NewHeaderSame(p, s.(round := s.round + 1), PrepareRound(p, s.(round := s.round + 1), s.round + 1));
  }

  lemma NewHeaderSame(p: Params, s: Proposer, t: Proposer)
    requires t == s.(silent := t.silent, silenceRound := t.silenceRound)
    ensures NewHeader(p, t) == NewHeader(p, s)
  {
  }

  lemma LeaderListed(p: Params, s: Proposer, t: Proposer, leader: Key, seen: set<Round>)
    requires GoodParents(p.committee, s, seen) && Find(s.lastParents, leader).Some? && t.lastParents == s.lastParents
    ensures exists d :: d in NewHeader(p, t).parents && d.origin == leader && d.round == s.round
  {
    var c := Found(s.lastParents, leader);
    OnceExact(DigestsOf(s.lastParents));
    var i :| 0 <= i < |s.lastParents| && s.lastParents[i] == c;
    assert DigestsOf(s.lastParents)[i] == c.Digest() && c.Digest() in NewHeader(p, t).parents;
  }

  lemma {:induction false} Found(cs: seq<Certified>, k: Key) returns (c: Certified)
    requires Find(cs, k).Some?
    ensures c in cs && c.header.author == k && Find(cs, k) == Some(c)
  {
    if cs[0].header.author == k {
      c := cs[0];
    } else {
      c := Found(cs[1..], k);
    }
  }

  // ----- What the tally counts -----

  ghost function Voters(cs: seq<Certified>, leader: Digest, forLeader: bool): set<Key> {
    set c | c in cs && (leader in c.header.parents) == forLeader :: c.header.author
  }

  /** When no author comes twice the tally is the stake behind the leader, and the stake of the others. */
  lemma {:induction false} TallyExact(cm: Committee, cs: seq<Certified>, leader: Digest)
    requires cm.Valid()
    requires forall i, j :: 0 <= i < j < |cs| ==> cs[i].header.author != cs[j].header.author
    ensures Tally(cm, cs, leader) == (cm.Weight(Voters(cs, leader, true)), cm.Weight(Voters(cs, leader, false)))
    ensures Voters(cs, leader, true) !! Voters(cs, leader, false)
    decreases |cs|
  {
    hide Committee.Weight;
    if cs == [] {
      cm.WeightEmpty(Voters(cs, leader, true));
      cm.WeightEmpty(Voters(cs, leader, false));
    } else {
      var m := |cs| - 1;
      var c, vote := cs[m], leader in cs[m].header.parents;
      TallyExact(cm, cs[..m], leader);
      assert forall x :: x in cs <==> x in cs[..m] || x == c;
      var same, others := Voters(cs[..m], leader, vote), Voters(cs[..m], leader, !vote);
      assert c.header.author !in same && c.header.author !in others;
      cm.WeightInsert(same, c.header.author);
      assert Voters(cs, leader, vote) == same + {c.header.author};
      assert Voters(cs, leader, !vote) == others;
    }
  }
}
