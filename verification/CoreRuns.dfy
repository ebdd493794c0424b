/**
 * What every run of a core keeps, message for message: payloads before votes, batches of parents that lose nothing, a memory that
 * forgets exactly the rounds below `gcRound`.
 */
module CoreRuns {
  import opened Committees
  import opened Dags
  import opened Messages
  import opened Aggregators
  import opened Handlers
  import opened Delivery
  import opened Protocol
  import opened Effects

  /** The consensus rounds read by the main loop never go back. */
  ghost predicate Ascending(turns: seq<Turn>) {
    forall i, j :: 0 <= i < j < |turns| ==> turns[i].consensusRound <= turns[j].consensusRound
  }

  ghost predicate AlwaysTimely(n: Authority, hash: Hash, turns: seq<Turn>)
    decreases |turns|
  {
    turns == [] ||
    var m := |turns| - 1;
    AlwaysTimely(n, hash, turns[..m]) && Timely(n, RunCore(n, hash, turns[..m]), turns[m])
  }

  /** A turn: the steps of its message, then the clean-up. */
  lemma TurnSteps(n: Authority, hash: Hash, s: Core, t: Turn) returns (es: seq<Effect>, mid: Core)
    ensures MayAll(n, Start(s, t.event), es) && mid == DoAll(n, Start(s, t.event), es)
    ensures Step(n, hash, s, t).0 == if t.event.BatchStored? then mid else Cleanup(n, mid, t.consensusRound)
  {
    hide Handle, Leads, Cleanup;
    es := HandleSteps(n, hash, s, t.event);
    mid := Handle(n, hash, s, t.event).0;
    LedTo(n, Start(s, t.event), es, mid);
  }

  lemma Starts(s: Core, e: Event)
    ensures var t := Start(s, e);
            && t.gcRound == s.gcRound && t.processing == s.processing && t.parents == s.parents && t.lastVoted == s.lastVoted
            && t.waitingHeaders == s.waitingHeaders && t.log == s.log.(proposed := t.log.proposed)
  {
  }

  // ----- No vote without the payload -----

  /** The batches that arrived before or during these turns. */
  ghost function Arrived(turns: seq<Turn>): set<Batch> {
    set i | 0 <= i < |turns| && turns[i].event.BatchStored? :: turns[i].event.batch
  }

  ghost predicate PayloadSound(n: Authority, s: Core) {
    forall h :: h in s.log.voted ==> h.id in s.store.headers && PayloadThere(n, s, h)
  }

  lemma StepPayload(n: Authority, s: Core, e: Effect)
    requires PayloadSound(n, s) && May(n, s, e)
    ensures PayloadSound(n, Do(n, s, e)) && Do(n, s, e).store.batches == s.store.batches
  {
    hide AppendVote, AppendCertificate, At;
  }

  lemma {:induction false} StepsPayload(n: Authority, s: Core, es: seq<Effect>)
    requires PayloadSound(n, s) && MayAll(n, s, es)
    ensures PayloadSound(n, DoAll(n, s, es)) && DoAll(n, s, es).store.batches == s.store.batches
    decreases |es|
  {
    hide PayloadSound, May, Do;
    if es != [] {
      var m := |es| - 1;
      StepsPayload(n, s, es[..m]);
      StepPayload(n, DoAll(n, s, es[..m]), es[m]);
    }
  }

  lemma {:induction false} RunPayload(n: Authority, hash: Hash, turns: seq<Turn>)
    ensures PayloadSound(n, RunCore(n, hash, turns)) && RunCore(n, hash, turns).store.batches == Arrived(turns)
    decreases |turns|
  {
    if turns != [] {
      var m := |turns| - 1;
      var s, e := RunCore(n, hash, turns[..m]), turns[m].event;
      RunPayload(n, hash, turns[..m]);
      assert PayloadSound(n, Start(s, e));
      hide PayloadSound, Handle, Leads;
      var es := HandleSteps(n, hash, s, e);
      LedTo(n, Start(s, e), es, Handle(n, hash, s, e).0);
      StepsPayload(n, Start(s, e), es);
      ArrivedStep(turns);
      CleanupStore(n, hash, s, turns[m]);
      SamePayload(n, Handle(n, hash, s, e).0, Step(n, hash, s, turns[m]).0);
    }
  }

  lemma LedTo(n: Authority, s: Core, es: seq<Effect>, t: Core)
    requires Leads(n, s, es, t)
    ensures MayAll(n, s, es) && DoAll(n, s, es) == t
  {
  }

  lemma SamePayload(n: Authority, s: Core, t: Core)
    requires PayloadSound(n, s) && t.store == s.store && t.log == s.log
    ensures PayloadSound(n, t)
  {
  }

  lemma CleanupStore(n: Authority, hash: Hash, s: Core, t: Turn)
    ensures var a, b := Handle(n, hash, s, t.event).0, Step(n, hash, s, t).0; b.store == a.store && b.log == a.log
  {
    hide Handle, From;
  }

  lemma ArrivedStep(turns: seq<Turn>)
    requires turns != []
    ensures var m := |turns| - 1; var e := turns[m].event;
            Arrived(turns) == Arrived(turns[..m]) + if e.BatchStored? then {e.batch} else {}
  {
    var m := |turns| - 1;
    assert forall i :: 0 <= i < m ==> turns[..m][i] == turns[i];
    assert forall b :: b in Arrived(turns) ==>
      b in Arrived(turns[..m]) || (turns[m].event.BatchStored? && turns[m].event.batch == b);
  }

  /**
   * In every run, of any messages, a core that votes for a header of another authority has received every batch of its payload
   * before, and whatever it votes for is in its store.
   */
  lemma {:induction false} VotesHavePayload(n: Authority, hash: Hash, turns: seq<Turn>, h: Header)
    requires h in RunCore(n, hash, turns).log.voted
    ensures h.author != n.name ==> forall b :: b in h.payload ==>
              exists i :: 0 <= i < |turns| && turns[i].event == BatchStored(b)
    ensures h.id in RunCore(n, hash, turns).store.headers
  {
    RunPayload(n, hash, turns);
    forall b | b in h.payload && h.author != n.name
      ensures exists i :: 0 <= i < |turns| && turns[i].event == BatchStored(b)
    {
      var i :| 0 <= i < |turns| && turns[i].event.BatchStored? && turns[i].event.batch == b;
      assert turns[i].event == BatchStored(b);
    }
  }

  // ----- The batches of parents of a round -----

  /** The certificates of one round among those sent, in order. */
  ghost function SentIn(sent: seq<Certified>, r: Round): seq<Certified>
    decreases |sent|
  {
    if sent == [] then []
    else SentIn(sent[..|sent| - 1], r) + (if sent[|sent| - 1].header.round == r then [sent[|sent| - 1]] else [])
  }

  /** The batches of one round handed to the proposer, in order. */
  ghost function BatchesIn(batches: seq<(seq<Certified>, Round)>, r: Round): seq<seq<Certified>>
    decreases |batches|
  {
    if batches == [] then []
    else BatchesIn(batches[..|batches| - 1], r) + (if batches[|batches| - 1].1 == r then [batches[|batches| - 1].0] else [])
  }

  ghost function RowOf(parents: map<Round, Parents>, r: Round): Parents {
    if r in parents then parents[r] else NO_PARENTS
  }

  /** From `gcRound` on the aggregator of a round has seen every certificate sent. */
  ghost predicate Gathers(cm: Committee, gcRound: Round, parents: map<Round, Parents>,
                          batches: seq<(seq<Certified>, Round)>, sent: seq<Certified>) {
    forall r :: gcRound <= r ==> Collect(cm, NO_PARENTS, SentIn(sent, r)) == (RowOf(parents, r), BatchesIn(batches, r))
  }

  lemma {:induction false} CollectAppends(cm: Committee, a: Parents, cs: seq<Certified>, c: Certified)
    ensures var (b, batches) := Collect(cm, a, cs); var (b', o) := AppendCertificate(cm, b, c);
            Collect(cm, a, cs + [c]) == (b', batches + match o case None => [] case Some(x) => [x])
    decreases |cs|
  {
    hide AppendCertificate;
    if cs == [] {
      assert cs + [c] == [c] && [c][1..] == [];
      var last := match AppendCertificate(cm, a, c).1 case None => [] case Some(x) => [x];
      assert last + [] == last && [] + last == last;
    } else {
      assert (cs + [c])[0] == cs[0] && (cs + [c])[1..] == cs[1..] + [c];
      var (a1, first) := AppendCertificate(cm, a, cs[0]);
      CollectAppends(cm, a1, cs[1..], c);
      var (b, rest) := Collect(cm, a1, cs[1..]);
      var head := match first case None => [] case Some(x) => [x];
      var last := match AppendCertificate(cm, b, c).1 case None => [] case Some(x) => [x];
      assert head + (rest + last) == head + rest + last;
    }
  }

  lemma StepGathers(n: Authority, s: Core, e: Effect)
    requires Gathers(n.committee, s.gcRound, s.parents, s.log.parents, s.log.sent)
    ensures var t := Do(n, s, e); t.gcRound == s.gcRound && Gathers(n.committee, t.gcRound, t.parents, t.log.parents, t.log.sent)
  {
    hide AppendVote, AppendCertificate, At, Collect, SentIn, BatchesIn;
    if e.Accepted? {
      AcceptGathers(n, s, e.certificate);
    }
  }

  lemma AcceptGathers(n: Authority, s: Core, c: Certified)
    requires Gathers(n.committee, s.gcRound, s.parents, s.log.parents, s.log.sent)
    ensures var t := Accept(n, s, c); t.gcRound == s.gcRound && Gathers(n.committee, t.gcRound, t.parents, t.log.parents, t.log.sent)
  {
    hide AppendCertificate, Collect;
    var t, q := Accept(n, s, c), c.header.round;
    var (row, o) := AppendCertificate(n.committee, RowOf(s.parents, q), c);
    forall r | s.gcRound <= r
      ensures Collect(n.committee, NO_PARENTS, SentIn(t.log.sent, r)) == (RowOf(t.parents, r), BatchesIn(t.log.parents, r))
    {
      SentAppends(s.log.sent, c, r);
      BatchesAppend(s.log.parents, o, q, r);
      if r == q {
        CollectAppends(n.committee, NO_PARENTS, SentIn(s.log.sent, r), c);
      }
    }
  }

  lemma SentAppends(sent: seq<Certified>, c: Certified, r: Round)
    ensures SentIn(sent + [c], r) == if c.header.round == r then SentIn(sent, r) + [c] else SentIn(sent, r)
  {
    assert (sent + [c])[..|sent|] == sent;
    assert SentIn(sent, r) + [] == SentIn(sent, r);
  }

  lemma BatchesAppend(batches: seq<(seq<Certified>, Round)>, o: Option<seq<Certified>>, q: Round, r: Round)
    ensures BatchesIn(batches + (if o.Some? then [(o.value, q)] else []), r)
            == if q == r then BatchesIn(batches, r) + (match o case None => [] case Some(x) => [x]) else BatchesIn(batches, r)
  {
    var none: seq<(seq<Certified>, Round)> := [];
    assert batches + none == batches && BatchesIn(batches, r) + [] == BatchesIn(batches, r);
    if o.Some? {
      assert (batches + [(o.value, q)])[..|batches|] == batches;
    }
  }

  lemma {:induction false} StepsGather(n: Authority, s: Core, es: seq<Effect>)
    requires Gathers(n.committee, s.gcRound, s.parents, s.log.parents, s.log.sent)
    ensures var t := DoAll(n, s, es); t.gcRound == s.gcRound && Gathers(n.committee, t.gcRound, t.parents, t.log.parents, t.log.sent)
    decreases |es|
  {
    hide Gathers, Do;
    if es != [] {
      var m := |es| - 1;
      StepsGather(n, s, es[..m]);
      StepGathers(n, DoAll(n, s, es[..m]), es[m]);
    }
  }

  lemma CleanupGathers(n: Authority, s: Core, round: Round)
    requires Gathers(n.committee, s.gcRound, s.parents, s.log.parents, s.log.sent)
    requires n.gcDepth < round ==> s.gcRound + n.gcDepth <= round
    ensures var t := Cleanup(n, s, round); Gathers(n.committee, t.gcRound, t.parents, t.log.parents, t.log.sent)
  {
    hide Collect, SentIn, BatchesIn;
  }

  lemma {:induction false} RunGathers(n: Authority, hash: Hash, turns: seq<Turn>)
    requires AlwaysTimely(n, hash, turns)
    ensures var s := RunCore(n, hash, turns); Gathers(n.committee, s.gcRound, s.parents, s.log.parents, s.log.sent)
    decreases |turns|
  {
    if turns == [] {
      NothingGathered(n.committee);
    } else {
      hide Gathers, Step, Start, Cleanup, DoAll, MayAll;
      var m := |turns| - 1;
      var s := RunCore(n, hash, turns[..m]);
      RunGathers(n, hash, turns[..m]);
      Starts(s, turns[m].event);
      var es, mid := TurnSteps(n, hash, s, turns[m]);
      StepsGather(n, Start(s, turns[m].event), es);
      CleanupGathers(n, mid, turns[m].consensusRound);
    }
  }

  lemma NothingGathered(cm: Committee)
    ensures Gathers(cm, 0, map[], [], [])
  {
  }

  /**
   * In every timely run, for every round from `gcRound` on, the batches handed to the proposer followed by the pending list are
   * the first certificate of each author among those sent of that round, in order; the first batch holds a quorum and each
   * later one a single certificate; and there is a batch exactly if the authors of the certificates sent hold a quorum.
   */
  lemma BatchesAreExact(n: Authority, hash: Hash, turns: seq<Turn>, r: Round)
    requires n.committee.Valid() && AlwaysTimely(n, hash, turns) && RunCore(n, hash, turns).gcRound <= r
    ensures var s := RunCore(n, hash, turns); var batches := BatchesIn(s.log.parents, r); var sent := SentIn(s.log.sent, r);
            && Concat(batches) + RowOf(s.parents, r).certificates == FirstPerAuthor(sent, {})
            && (batches != [] <==> HasQuorum(n.committee, sent))
            && (batches != [] ==> HasQuorum(n.committee, batches[0]) && Singletons(batches[1..]))
            && (batches != [] ==> RowOf(s.parents, r).certificates == [])
  {
    hide RunCore, Collect, Committee.Weight, Committee.QuorumThreshold, FirstPerAuthor;
    RunGathers(n, hash, turns);
    var s := RunCore(n, hash, turns);
    ParentsConserved(n.committee, SentIn(s.log.sent, r));
    FedExactly(n.committee, SentIn(s.log.sent, r));
  }

  /** An aggregator has handed something out exactly if the authors of what it was fed hold a quorum. */
  lemma FedExactly(cm: Committee, cs: seq<Certified>)
    requires cm.Valid()
    ensures var (b, batches) := Collect(cm, NO_PARENTS, cs);
            (batches != [] <==> HasQuorum(cm, cs)) && (batches != [] ==> b.certificates == [])
  {
    hide Committee.Weight, Committee.QuorumThreshold, Collect;
    NothingCollected(cm);
    CollectedSo(cm, NO_PARENTS, cs);
    assert {} + Origins(cs) == Origins(cs);
  }

  lemma {:induction false} CollectedSo(cm: Committee, a: Parents, cs: seq<Certified>)
    requires cm.Valid() && Collecting(cm, a)
    ensures var (b, batches) := Collect(cm, a, cs);
            && Collecting(cm, b) && b.used == a.used + Origins(cs)
            && (a.weight < cm.QuorumThreshold() ==> (batches != [] <==> cm.QuorumThreshold() <= b.weight))
    decreases |cs|
  {
    hide Committee.Weight, Committee.QuorumThreshold;
    if cs == [] {
      assert a.used + Origins(cs) == a.used;
    } else {
      var (a1, o) := AppendCertificate(cm, a, cs[0]);
      CollectingStep(cm, a, cs[0]);
      CollectedSo(cm, a1, cs[1..]);
      assert forall c :: c in cs <==> c == cs[0] || c in cs[1..];
      assert Origins(cs) == {cs[0].header.author} + Origins(cs[1..]);
      assert a1.used == a.used + {cs[0].header.author};
      var (b, rest) := Collect(cm, a1, cs[1..]);
      assert b.used == a.used + Origins(cs);
      cm.WeightMonotone(a1.used, b.used);
    }
  }

  // ----- What is remembered and what is forgotten -----

  /** From `gcRound` on a core remembers which headers it has dealt with. */
  ghost predicate Processing(gcRound: Round, processing: map<Round, set<nat>>, voted: seq<Header>, waiting: set<Header>) {
    && (forall h :: h in voted && gcRound <= h.round ==> h.id in At(processing, h.round))
    && (forall h :: h in waiting && gcRound <= h.round ==> h.id in At(processing, h.round))
  }

  lemma StepProcessing(n: Authority, s: Core, e: Effect)
    requires Processing(s.gcRound, s.processing, s.log.voted, s.waitingHeaders) && May(n, s, e)
    ensures var t := Do(n, s, e);
            t.gcRound == s.gcRound && Processing(t.gcRound, t.processing, t.log.voted, t.waitingHeaders)
  {
    hide AppendVote, AppendCertificate;
  }

  lemma {:induction false} StepsProcessing(n: Authority, s: Core, es: seq<Effect>)
    requires Processing(s.gcRound, s.processing, s.log.voted, s.waitingHeaders) && MayAll(n, s, es)
    ensures var t := DoAll(n, s, es);
            t.gcRound == s.gcRound && Processing(t.gcRound, t.processing, t.log.voted, t.waitingHeaders)
    decreases |es|
  {
    hide Processing, Do, May;
    if es != [] {
      var m := |es| - 1;
      StepsProcessing(n, s, es[..m]);
      StepProcessing(n, DoAll(n, s, es[..m]), es[m]);
    }
  }

  lemma CleanupProcessing(n: Authority, s: Core, round: Round)
    requires Processing(s.gcRound, s.processing, s.log.voted, s.waitingHeaders)
    requires n.gcDepth < round ==> s.gcRound + n.gcDepth <= round
    ensures var t := Cleanup(n, s, round); Processing(t.gcRound, t.processing, t.log.voted, t.waitingHeaders)
  {
  }

  /** In every timely run the headers voted for or waiting, from `gcRound` on, are known as being processed. */
  lemma {:induction false} ProcessingKept(n: Authority, hash: Hash, turns: seq<Turn>)
    requires AlwaysTimely(n, hash, turns)
    ensures var s := RunCore(n, hash, turns); Processing(s.gcRound, s.processing, s.log.voted, s.waitingHeaders)
    decreases |turns|
  {
    if turns != [] {
      hide Processing, Step, Start, Cleanup, DoAll, MayAll;
      var m := |turns| - 1;
      var s := RunCore(n, hash, turns[..m]);
      ProcessingKept(n, hash, turns[..m]);
      Starts(s, turns[m].event);
      var es, mid := TurnSteps(n, hash, s, turns[m]);
      StepsProcessing(n, Start(s, turns[m].event), es);
      CleanupProcessing(n, mid, turns[m].consensusRound);
    }
  }

  /** The consensus round read last: a batch that arrives in the store is no turn of the core. */
  ghost function LastRound(turns: seq<Turn>): Round
    decreases |turns|
  {
    if turns == [] then 0
    else if turns[|turns| - 1].event.BatchStored? then LastRound(turns[..|turns| - 1])
    else turns[|turns| - 1].consensusRound
  }

  ghost function Behind(round: Round, gcDepth: Round): Round {
    if gcDepth < round then round - gcDepth else 0
  }

  lemma {:induction false} LastRoundIsPast(turns: seq<Turn>, round: Round)
    requires forall i :: 0 <= i < |turns| ==> turns[i].consensusRound <= round
    ensures LastRound(turns) <= round
    decreases |turns|
  {
    if turns != [] {
      LastRoundIsPast(turns[..|turns| - 1], round);
    }
  }

  ghost predicate RowsFrom(gcRound: Round, lastVoted: map<Round, set<Key>>, processing: map<Round, set<nat>>,
                           parents: map<Round, Parents>) {
    forall r :: r in lastVoted || r in processing || r in parents ==> gcRound <= r
  }

  lemma {:induction false} StepsHorizon(n: Authority, s: Core, es: seq<Effect>)
    ensures DoAll(n, s, es).gcRound == s.gcRound
    decreases |es|
  {
    hide AppendVote, AppendCertificate, At;
    if es != [] {
      StepsHorizon(n, s, es[..|es| - 1]);
    }
  }

  /**
   * In every run whose consensus rounds do not go back `gcRound` is the consensus round read last less the depth, and votes,
   * processed headers and aggregators of lower rounds are all forgotten.
   */
  lemma {:induction false} ForgetsExactly(n: Authority, hash: Hash, turns: seq<Turn>)
    requires Ascending(turns)
    ensures var s := RunCore(n, hash, turns);
            && s.gcRound == Behind(LastRound(turns), n.gcDepth)
            && RowsFrom(s.gcRound, s.lastVoted, s.processing, s.parents)
    ensures AlwaysTimely(n, hash, turns)
    decreases |turns|
  {
    if turns != [] {
      hide Handle, Leads;
      var m := |turns| - 1;
      var s, e := RunCore(n, hash, turns[..m]), turns[m].event;
      ForgetsExactly(n, hash, turns[..m]);
      LastRoundIsPast(turns[..m], turns[m].consensusRound);
      var es := HandleSteps(n, hash, s, e);
      LedTo(n, Start(s, e), es, Handle(n, hash, s, e).0);
      StepsHorizon(n, Start(s, e), es);
      if e.BatchStored? {
        BatchOnly(n, hash, s, e);
      }
    }
  }

  lemma BatchOnly(n: Authority, hash: Hash, s: Core, e: Event)
    requires e.BatchStored?
    ensures var t := Handle(n, hash, s, e).0;
            t.lastVoted == s.lastVoted && t.processing == s.processing && t.parents == s.parents
  {
  }
}
