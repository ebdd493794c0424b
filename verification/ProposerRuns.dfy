/**
 * What every run of the proposer keeps, batch for batch: each header carries exactly the batches received since the header before,
 * and lists exactly the parents received for the round it leaves.
 */
module ProposerRuns {
  import opened Collections
  import opened Committees
  import opened Dags
  import opened Messages
  import opened Aggregators
  import opened Proposing
  import opened ProposerSafety

  // ----- Batches -----

  function Received(turns: seq<Turn>): seq<Batch>
    decreases |turns|
  {
    if turns == [] then []
    else
      var e := turns[|turns| - 1].event;
      Received(turns[..|turns| - 1]) + (if e.BatchIn? then [e.batch] else [])
  }

  /** The batches received between one header and the next, header by header, and those received since the last. */
  ghost function Segments(p: Params, turns: seq<Turn>): (seq<seq<Batch>>, seq<Batch>)
    requires p.committee.Valid()
    decreases |turns|
  {
    if turns == [] then ([], [])
    else
      var before, e := turns[..|turns| - 1], turns[|turns| - 1].event;
      var (closed, open) := Segments(p, before);
      var news := if e.BatchIn? then [e.batch] else [];
      if |RunProposer(p, before).made| < |RunProposer(p, turns).made| then (closed + [open], news) else (closed, open + news)
  }

  function Joined(segments: seq<seq<Batch>>): seq<Batch>
    decreases |segments|
  {
    if segments == [] then [] else Joined(segments[..|segments| - 1]) + segments[|segments| - 1]
  }

  /** The worker named last for a digest. */
  function LastWorker(xs: seq<Batch>, digest: nat): Option<nat>
    decreases |xs|
  {
    if xs == [] then None
    else if xs[|xs| - 1].digest == digest then Some(xs[|xs| - 1].worker)
    else LastWorker(xs[..|xs| - 1], digest)
  }

  ghost predicate DistinctDigests(xs: seq<Batch>) {
    forall i, j :: 0 <= i < j < |xs| ==> xs[i].digest != xs[j].digest
  }

  /** A payload maps each digest received to the worker named last for it, and nothing else. */
  ghost predicate Carries(payload: seq<Batch>, received: seq<Batch>) {
    && DistinctDigests(payload)
    && forall b :: b in payload <==> LastWorker(received, b.digest) == Some(b.worker)
  }

  lemma {:induction false} OtherDigestsExact(xs: seq<Batch>, digest: nat)
    ensures forall b :: b in OtherDigests(xs, digest) <==> b in xs && b.digest != digest
    decreases |xs|
  {
    if xs != [] {
      assert forall b :: b in xs <==> b == xs[0] || b in xs[1..];
      OtherDigestsExact(xs[1..], digest);
    }
  }

  lemma {:induction false} OtherDigestsDistinct(xs: seq<Batch>, digest: nat)
    requires DistinctDigests(xs)
    ensures DistinctDigests(OtherDigests(xs, digest))
    decreases |xs|
  {
    if xs != [] {
      var rest := xs[1..];
      assert forall i :: 0 <= i < |rest| ==> rest[i] == xs[i + 1];
      OtherDigestsDistinct(rest, digest);
      OtherDigestsExact(rest, digest);
      var ys := OtherDigests(rest, digest);
      forall i | 0 <= i < |ys|
        ensures ys[i].digest != xs[0].digest
      {
        assert ys[i] in ys && ys[i] in rest;
      }
    }
  }

  lemma DistinctAppends(xs: seq<Batch>, last: Batch)
    requires DistinctDigests(xs) && forall b :: b in xs ==> b.digest != last.digest
    ensures DistinctDigests(xs + [last])
  {
    assert forall i :: 0 <= i < |xs| ==> xs[i] in xs;
  }

  lemma {:induction false} PayloadCarries(xs: seq<Batch>)
    ensures Carries(PayloadOf(xs), xs)
    decreases |xs|
  {
    hide DistinctDigests, OtherDigests;
    if xs == [] {
      NoDigests();
    } else {
      var before, last := xs[..|xs| - 1], xs[|xs| - 1];
      PayloadCarries(before);
      OtherDigestsExact(PayloadOf(before), last.digest);
      OtherDigestsDistinct(PayloadOf(before), last.digest);
      DistinctAppends(OtherDigests(PayloadOf(before), last.digest), last);
    }
  }

  lemma NoDigests()
    ensures DistinctDigests([])
  {
  }

  ghost predicate Accounted(s: Proposer, closed: seq<seq<Batch>>, open: seq<Batch>) {
    && s.digests == open && s.payloadSize == DIGEST_SIZE * |open|
    && |closed| == |s.made| && forall i :: 0 <= i < |closed| ==> Carries(s.made[i].payload, closed[i])
  }

  lemma AdvanceAccounts(p: Params, s: Proposer, closed: seq<seq<Batch>>, open: seq<Batch>)
    requires p.committee.Valid() && Accounted(s, closed, open)
    ensures var t := Advance(p, s);
            if |s.made| < |t.made| then Accounted(t, closed + [open], []) else t.made == s.made && Accounted(t, closed, open)
  {
    hide ComputeSilence, Carries, Once, DigestsOf, PayloadOf;
    PayloadCarries(open);
  }

  lemma ReceiveAccounts(p: Params, s: Proposer, closed: seq<seq<Batch>>, open: seq<Batch>, e: Event)
    requires p.committee.Valid() && Accounted(s, closed, open)
    ensures var t := Receive(p, s, e);
            t.made == s.made && Accounted(t, closed, open + if e.BatchIn? then [e.batch] else [])
  {
    hide ComputeSilence, Carries, Find, EnoughVotes;
    assert open + [] == open;
  }

  lemma {:induction false} RunAccounts(p: Params, turns: seq<Turn>)
    requires p.committee.Valid()
    ensures var (closed, open) := Segments(p, turns);
            Accounted(RunProposer(p, turns), closed, open) && Joined(closed) + open == Received(turns)
    decreases |turns|
  {
    hide Accounted, Advance, Receive, Ready, ComputeSilence;
    if turns == [] {
      InitiallyAccounted(p);
    } else {
      var before, t := turns[..|turns| - 1], turns[|turns| - 1];
      RunAccounts(p, before);
      var s := RunProposer(p, before);
      var (closed, open) := Segments(p, before);
      var news := if t.event.BatchIn? then [t.event.batch] else [];
      if Ready(p, s, t.timerExpired) {
        AdvanceAccounts(p, s, closed, open);
        if |s.made| < |Advance(p, s).made| {
          ReceiveAccounts(p, Advance(p, s), closed + [open], [], t.event);
          assert [] + news == news;
          JoinedAppends(closed, open);
        } else {
          ReceiveAccounts(p, Advance(p, s), closed, open, t.event);
        }
      } else {
        ReceiveAccounts(p, s, closed, open, t.event);
      }
      assert Joined(closed) + (open + news) == Joined(closed) + open + news;
    }
  }

  lemma InitiallyAccounted(p: Params)
    requires p.committee.Valid()
    ensures Accounted(InitialProposer(p), [], [])
  {
    hide ComputeSilence;
  }

  lemma JoinedAppends(segments: seq<seq<Batch>>, more: seq<Batch>)
    ensures Joined(segments + [more]) == Joined(segments) + more
  {
    assert (segments + [more])[..|segments|] == segments;
  }

  /**
   * Over every run the batches received fall into segments, one for each header made and an open one: each header carries exactly
   * the digests of its segment, each with the worker named last, and the open segment is what the next header will carry. So no
   * digest is lost or proposed in two headers, whatever rounds are silent or skipped.
   */
  lemma PayloadsAreReceived(p: Params, turns: seq<Turn>)
    requires p.committee.Valid()
    ensures var s := RunProposer(p, turns); var (closed, open) := Segments(p, turns);
            && |closed| == |s.made| && (forall i :: 0 <= i < |closed| ==> Carries(s.made[i].payload, closed[i]))
            && Joined(closed) + open == Received(turns)
            && s.digests == open && s.payloadSize == DIGEST_SIZE * |open|
  {
    hide Carries;
    RunAccounts(p, turns);
  }

  // ----- Parents -----

  /** All certificates received for a round, batch after batch. */
  function Gathered(batches: seq<(seq<Certified>, Round)>, r: Round): seq<Certified>
    decreases |batches|
  {
    if batches == [] then []
    else
      var b := batches[|batches| - 1];
      Gathered(batches[..|batches| - 1], r) + (if b.1 == r then b.0 else [])
  }

  /** The parents in hand are exactly those received for the current round, and genesis at round 0. */
  ghost predicate Hand(genesis: seq<Certified>, round: Round, hand: seq<Certified>, batches: seq<(seq<Certified>, Round)>) {
    && (forall b :: b in batches ==> b.1 <= round)
    && hand == (if round == 0 then genesis else []) + Gathered(batches, round)
  }

  ghost predicate InHand(p: Params, s: Proposer, batches: seq<(seq<Certified>, Round)>)
    requires p.committee.Valid()
  {
    Hand(GenesisCertificates(p.committee.keys), s.round, s.lastParents, batches)
  }

  lemma {:induction false} NoneGathered(batches: seq<(seq<Certified>, Round)>, r: Round)
    requires forall b :: b in batches ==> b.1 < r
    ensures Gathered(batches, r) == []
    decreases |batches|
  {
    if batches != [] {
      var m := |batches| - 1;
      assert forall b :: b in batches[..m] ==> b in batches;
      assert batches[m] in batches;
      NoneGathered(batches[..m], r);
    }
  }

  lemma GatheredAppends(batches: seq<(seq<Certified>, Round)>, cs: seq<Certified>, q: Round, r: Round)
    ensures Gathered(batches + [(cs, q)], r) == Gathered(batches, r) + if q == r then cs else []
  {
    assert (batches + [(cs, q)])[..|batches|] == batches;
  }

  lemma AdvanceInHand(p: Params, s: Proposer, batches: seq<(seq<Certified>, Round)>)
    requires p.committee.Valid() && InHand(p, s, batches)
    ensures InHand(p, Advance(p, s), batches)
  {
    hide ComputeSilence, Once, DigestsOf, PayloadOf;
    NoneGathered(batches, s.round + 1);
    var none: seq<Certified> := [];
    assert none + none == none;
  }

  /** A batch of a later round replaces the parents in hand, one of the current round extends them, an older one is ignored. */
  lemma HandReceives(genesis: seq<Certified>, round: Round, hand: seq<Certified>, batches: seq<(seq<Certified>, Round)>,
                     cs: seq<Certified>, q: Round)
    requires Hand(genesis, round, hand, batches)
    ensures var more := batches + [(cs, q)];
            if round < q then Hand(genesis, q, cs, more)
            else if q < round then Hand(genesis, round, hand, more)
            else Hand(genesis, round, hand + cs, more)
  {
    GatheredAppends(batches, cs, q, if round < q then q else round);
    if round < q {
      NoneGathered(batches, q);
      assert [] + ([] + cs) == cs;
    } else if q < round {
      assert Gathered(batches, round) + [] == Gathered(batches, round);
    } else {
      var start := if round == 0 then genesis else [];
      assert start + (Gathered(batches, round) + cs) == start + Gathered(batches, round) + cs;
    }
  }

  lemma ReceiveInHand(p: Params, s: Proposer, batches: seq<(seq<Certified>, Round)>, e: Event)
    requires p.committee.Valid() && InHand(p, s, batches)
    ensures InHand(p, Receive(p, s, e), batches + if e.ParentsIn? then [(e.parents, e.round)] else [])
  {
    hide ComputeSilence, Find, EnoughVotes, GenesisCertificates, Hand;
    assert batches + [] == batches;
    if e.ParentsIn? {
      HandReceives(GenesisCertificates(p.committee.keys), s.round, s.lastParents, batches, e.parents, e.round);
    }
  }

  lemma {:induction false} RunInHand(p: Params, turns: seq<Turn>)
    requires p.committee.Valid()
    ensures InHand(p, RunProposer(p, turns), Batches(turns))
    decreases |turns|
  {
    hide InHand, Advance, Receive, Ready, ComputeSilence;
    if turns == [] {
      InitiallyInHand(p);
    } else {
      var before, t := turns[..|turns| - 1], turns[|turns| - 1];
      var s := RunProposer(p, before);
      RunInHand(p, before);
      if Ready(p, s, t.timerExpired) {
        AdvanceInHand(p, s, Batches(before));
        ReceiveInHand(p, Advance(p, s), Batches(before), t.event);
      } else {
        ReceiveInHand(p, s, Batches(before), t.event);
      }
    }
  }

  lemma InitiallyInHand(p: Params)
    requires p.committee.Valid()
    ensures InHand(p, InitialProposer(p), [])
  {
    hide ComputeSilence;
    assert GenesisCertificates(p.committee.keys) + [] == GenesisCertificates(p.committee.keys);
  }

  // ----- Entering a round -----

  /** The authorities kept silent in a round, as the adversary's definition has them. */
  ghost function SilentIn(p: Params, round: Round): set<Key>
    requires p.committee.Valid()
  {
    Adversary.Silent(Adversary.ScoreIn(p.score, round), p.committee.keys, p.faults, p.committee.Leader(round))
  }

  /**
   * In every run the check at the top of the loop enters the next round exactly if there are parents and either the timer expired
   * or the batches waiting fill a header on the happy path. It makes a header exactly if the authority is not to be silent, over
   * exactly the parents received for the round it leaves; otherwise it keeps the batches for later.
   */
  lemma EntersRound(p: Params, turns: seq<Turn>, timerExpired: bool)
    requires p.committee.Valid() && p.name in p.committee.keys && 0 < p.committee.Total()
    requires QuorumFirst(p.committee, Batches(turns))
    ensures var s := RunProposer(p, turns); var open := Segments(p, turns).1;
            Ready(p, s, timerExpired) <==>
              && (timerExpired || (p.headerSize <= DIGEST_SIZE * |open| && s.advance))
              && (s.round == 0 || Gathered(Batches(turns), s.round) != [])
    ensures var s := RunProposer(p, turns); var t := Advance(p, s);
            && t.round == s.round + 1 && t.lastParents == []
            && (p.name in SilentIn(p, t.round) ==> t.made == s.made && t.digests == s.digests && t.lastLeader == None)
            && (p.name !in SilentIn(p, t.round) ==>
                  && |t.made| == |s.made| + 1 && t.made[..|s.made|] == s.made && t.digests == []
                  && var h := t.made[|s.made|];
                     && h.author == p.name && h.round == t.round && NoRepeats(h.parents)
                     && forall d :: d in h.parents <==> exists c :: c in s.lastParents && c.Digest() == d)
  {
    hide Inv, ComputeSilence, QuorumFirst, Segments, Gathered, PayloadOf, Once, DigestsOf;
    var s := RunProposer(p, turns);
    RunAccounts(p, turns);
    RunInHand(p, turns);
    RunKeeps(p, turns);
    SomeGenesis(p.committee.keys);
    AdvanceEnters(p, s, Rounds(Batches(turns)));
  }

  lemma SomeGenesis(ks: seq<Key>)
    ensures GenesisCertificates(ks) == [] <==> ks == []
  {
  }

  lemma AdvanceEnters(p: Params, s: Proposer, seen: set<Round>)
    requires p.committee.Valid() && p.name in p.committee.keys && Inv(p, s, seen)
    ensures var t := Advance(p, s);
            && t.round == s.round + 1 && t.lastParents == []
            && (p.name in SilentIn(p, t.round) ==> t.made == s.made && t.digests == s.digests && t.lastLeader == None)
            && (p.name !in SilentIn(p, t.round) ==>
                  && |t.made| == |s.made| + 1 && t.made[..|s.made|] == s.made && t.digests == []
                  && var h := t.made[|s.made|];
                     && h.author == p.name && h.round == t.round && NoRepeats(h.parents)
                     && forall d :: d in h.parents <==> exists c :: c in s.lastParents && c.Digest() == d)
  {
    hide GoodHeaders, GoodParents, GoodAdvance, ComputeSilence, PayloadOf, Once, DigestsOf;
    SilenceIs(p, s.round + 1);
    SilenceIs(p, s.silenceRound);
    OnceExact(DigestsOf(s.lastParents));
    DigestsExact(s.lastParents);
  }

  lemma SilenceIs(p: Params, round: Round)
    requires p.committee.Valid() && p.name in p.committee.keys
    ensures ComputeSilence(p, round) <==> p.name in SilentIn(p, round)
  {
    hide Adversary.Selected;
  }

  lemma DigestsExact(cs: seq<Certified>)
    ensures forall d :: d in DigestsOf(cs) <==> exists c :: c in cs && c.Digest() == d
  {
    forall d
      ensures d in DigestsOf(cs) <==> exists c :: c in cs && c.Digest() == d
    {
      if d in DigestsOf(cs) {
        var i :| 0 <= i < |cs| && DigestsOf(cs)[i] == d;
        assert cs[i] in cs;
      }
      if c :| c in cs && c.Digest() == d {
        var i :| 0 <= i < |cs| && cs[i] == c;
        assert DigestsOf(cs)[i] == d;
      }
    }
  }

  // ----- The happy path -----

  /**
   * In every run, with parents in hand, the loop is on the happy path at an even round exactly if one of them is the leader's, and
   * at an odd round exactly if no leader is known or its votes hold a quorum or the others hold f+1 stake.
   */
  lemma AdvanceExactly(p: Params, turns: seq<Turn>)
    requires p.committee.Valid() && 0 < p.committee.Total() && QuorumFirst(p.committee, Batches(turns))
    requires RunProposer(p, turns).lastParents != []
    ensures var s := RunProposer(p, turns); var cm := p.committee;
            && (s.round % 2 == 0 ==> (s.advance <==> exists c :: c in s.lastParents && c.header.author == cm.Leader(s.round)))
            && (s.round % 2 == 1 && s.lastLeader.None? ==> s.advance)
            && (s.round % 2 == 1 && s.lastLeader.Some? ==>
                  var (yes, no) := Tally(cm, s.lastParents, s.lastLeader.value.Digest());
                  s.advance <==> 2 * cm.Total() / 3 + 1 <= yes || (cm.Total() + 2) / 3 <= no)
  {
    hide GoodHeaders, GoodParents, ComputeSilence, Tally, QuorumFirst, Committee.Total;
    RunKeeps(p, turns);
    var s := RunProposer(p, turns);
    FindExactly(s.lastParents, p.committee.Leader(s.round));
  }

  lemma {:induction false} FindExactly(cs: seq<Certified>, k: Key)
    ensures Find(cs, k).Some? <==> exists c :: c in cs && c.header.author == k
    ensures Find(cs, k).Some? ==>
              exists i :: 0 <= i < |cs| && Find(cs, k) == Some(cs[i]) && cs[i].header.author == k
                          && forall j :: 0 <= j < i ==> cs[j].header.author != k
    decreases |cs|
  {
    if cs != [] {
      FindExactly(cs[1..], k);
      assert forall c :: c in cs <==> c == cs[0] || c in cs[1..];
      if cs[0].header.author == k {
        assert Find(cs, k) == Some(cs[0]);
      } else if Find(cs[1..], k).Some? {
        var i :| 0 <= i < |cs[1..]| && Find(cs[1..], k) == Some(cs[1..][i]) && cs[1..][i].header.author == k
                 && forall j :: 0 <= j < i ==> cs[1..][j].header.author != k;
        assert cs[i + 1] == cs[1..][i];
        assert forall j :: 0 < j < i + 1 ==> cs[j] == cs[1..][j - 1];
      }
    }
  }

  ghost predicate LeaderKept(p: Params, s: Proposer)
    requires p.committee.Valid()
  {
    s.lastLeader.Some? ==>
      var h := s.lastLeader.value.header; h.round % 2 == 0 && h.round <= s.round && h.author == p.committee.Leader(h.round)
  }

  lemma AdvanceLeader(p: Params, s: Proposer)
    requires p.committee.Valid() && LeaderKept(p, s)
    ensures LeaderKept(p, Advance(p, s)) && Advance(p, s).lastParents == []
  {
    hide ComputeSilence, NewHeader;
  }

  lemma ReceiveLeader(p: Params, s: Proposer, e: Event)
    requires p.committee.Valid() && LeaderKept(p, s) && OfRound(s.lastParents, s.round)
    requires e.ParentsIn? ==> OfRound(e.parents, e.round)
    ensures LeaderKept(p, Receive(p, s, e))
  {
    hide ComputeSilence, EnoughVotes, Find;
    if e.ParentsIn? {
      var r := Receive(p, s, e);
      assert OfRound(r.lastParents, r.round);
      FindExactly(r.lastParents, p.committee.Leader(r.round));
    }
  }

  lemma StepLeader(p: Params, s: Proposer, t: Turn, seen: set<Round>)
    requires p.committee.Valid() && LeaderKept(p, s) && GoodParents(p.committee, s, seen)
    requires t.event.ParentsIn? ==> OfRound(t.event.parents, t.event.round)
    ensures LeaderKept(p, Step(p, s, t))
  {
    assert OfRound(s.lastParents, s.round);
    hide LeaderKept, Advance, Receive, Ready, GoodParents;
    if Ready(p, s, t.timerExpired) {
      AdvanceLeader(p, s);
      NoParents(Advance(p, s).round);
      ReceiveLeader(p, Advance(p, s), t.event);
    } else {
      ReceiveLeader(p, s, t.event);
    }
  }

  /** In every run the last leader known is of an even round and by the leader of that round. */
  lemma {:induction false} LeaderIsLeader(p: Params, turns: seq<Turn>)
    requires p.committee.Valid() && 0 < p.committee.Total() && QuorumFirst(p.committee, Batches(turns))
    ensures LeaderKept(p, RunProposer(p, turns))
    decreases |turns|
  {
    hide GoodHeaders, GoodAdvance, GoodParents, Step, OfRound, HasQuorum, ComputeSilence;
    if turns != [] {
      var before := turns[..|turns| - 1];
      BatchesStep(p.committee, turns);
      LeaderIsLeader(p, before);
      RunKeeps(p, before);
      StepLeader(p, RunProposer(p, before), turns[|turns| - 1], Rounds(Batches(before)));
    }
  }

  /**
   * The leader looked for last: at every message with parents in an even round, among the parents then in hand. It is forgotten
   * when the authority enters a round in silence.
   */
  ghost function LookedFor(p: Params, turns: seq<Turn>): Option<Certified>
    requires p.committee.Valid()
    decreases |turns|
  {
    if turns == [] then None
    else
      var before, t := turns[..|turns| - 1], turns[|turns| - 1];
      var s, after := RunProposer(p, before), RunProposer(p, turns);
      var entered := (t.timerExpired || (p.headerSize <= s.payloadSize && s.advance)) && s.lastParents != [];
      if t.event.ParentsIn? && after.round % 2 == 0 then Find(after.lastParents, p.committee.Leader(after.round))
      else if entered && p.name in SilentIn(p, s.round + 1) then None
      else LookedFor(p, before)
  }

  lemma StepLooks(p: Params, s: Proposer, t: Turn, seen: set<Round>)
    requires p.committee.Valid() && p.name in p.committee.keys && Inv(p, s, seen)
    ensures var after := Step(p, s, t);
            var entered := (t.timerExpired || (p.headerSize <= s.payloadSize && s.advance)) && s.lastParents != [];
            after.lastLeader ==
              if t.event.ParentsIn? && after.round % 2 == 0 then Find(after.lastParents, p.committee.Leader(after.round))
              else if entered && p.name in SilentIn(p, s.round + 1) then None
              else s.lastLeader
  {
    hide GoodHeaders, GoodParents, GoodAdvance, ComputeSilence, NewHeader, EnoughVotes, Find, SilentIn;
    SilenceIs(p, s.round + 1);
    SilenceIs(p, s.silenceRound);
  }

  /** In every run the last leader known is the one looked for last. */
  lemma {:induction false} LastLeaderExactly(p: Params, turns: seq<Turn>)
    requires p.committee.Valid() && p.name in p.committee.keys && 0 < p.committee.Total()
    requires QuorumFirst(p.committee, Batches(turns))
    ensures RunProposer(p, turns).lastLeader == LookedFor(p, turns)
    decreases |turns|
  {
    hide Inv, Step, ComputeSilence, SilentIn, Find;
    if turns == [] {
      NoneKnown(p);
    } else {
      var before := turns[..|turns| - 1];
      BatchesStep(p.committee, turns);
      LastLeaderExactly(p, before);
      RunKeeps(p, before);
      StepLooks(p, RunProposer(p, before), turns[|turns| - 1], Rounds(Batches(before)));
    }
  }

  lemma NoneKnown(p: Params)
    requires p.committee.Valid()
    ensures InitialProposer(p).lastLeader == None
  {
  }
}
