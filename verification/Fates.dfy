/** What becomes of each message, told from what the core knows when it arrives: parents, payload, votes remembered. */
module Fates {
  import opened Committees
  import opened Dags
  import opened Messages
  import opened Aggregators
  import opened Handlers
  import opened Delivery
  import opened Effects

  // ----- What is taken up at all -----

  /** A header is taken up exactly if it is not below `gcRound` and verifies; otherwise nothing changes. */
  lemma HeaderTakenUp(n: Authority, hash: Hash, s: Core, h: Header)
    ensures SanitizeHeader(n, hash, s, h).Ok? <==>
            && s.gcRound <= h.round
            && h.id == hash(h.author, h.round, h.payload, h.parents)
            && h.author in n.committee.stakes && 0 < n.committee.stakes[h.author]
            && forall b :: b in h.payload ==> h.author in n.committee.workers && b.worker in n.committee.workers[h.author]
    ensures !SanitizeHeader(n, hash, s, h).Ok? ==> Handle(n, hash, s, HeaderIn(h)).0 == s
    ensures h.round < s.gcRound ==> Handle(n, hash, s, HeaderIn(h)) == (s, Err(TooOld(h.id, h.round)))
  {
    HeaderVerifies(n.committee, hash, h);
    hide ProcessHeader, VerifyHeader;
  }

  /** A vote is taken up exactly if it is one for the current header by an authority with stake; otherwise nothing changes. */
  lemma VoteTakenUp(n: Authority, hash: Hash, s: Core, v: Vote)
    ensures SanitizeVote(n, s, v).Ok? <==>
            v == VoteFor(s.current, v.author) && v.author in n.committee.stakes && 0 < n.committee.stakes[v.author]
    ensures !SanitizeVote(n, s, v).Ok? ==> Handle(n, hash, s, VoteIn(v)).0 == s
    ensures v.round < s.current.round ==> Handle(n, hash, s, VoteIn(v)) == (s, Err(TooOld(v.id, v.round)))
  {
    hide ProcessVote;
  }

  /**
   * A certificate is taken up exactly if it is not below `gcRound` and is genesis by its digest, or its header verifies and
   * distinct authorities with a quorum of stake voted; otherwise nothing changes.
   */
  lemma CertificateTakenUp(n: Authority, hash: Hash, s: Core, c: Certified)
    requires n.committee.Valid()
    ensures SanitizeCertificate(n, hash, s, c).Ok? <==>
            && s.gcRound <= c.header.round
            && (|| (c.header.id == GENESIS_ID && c.header.round == 0 && c.header.author in n.committee.keys)
                || (VerifyHeader(n.committee, hash, c.header).Ok? && QuorumOfVotes(n.committee, c.votes)))
    ensures !SanitizeCertificate(n, hash, s, c).Ok? ==> Handle(n, hash, s, CertificateIn(c)).0 == s
    ensures c.header.round < s.gcRound ==> Handle(n, hash, s, CertificateIn(c)) == (s, Err(TooOld(c.header.id, c.header.round)))
  {
    hide ProcessCertificate, VerifyHeader, QuorumOfVotes, Verify;
    VerifyExact(n.committee, hash, c);
  }

  // ----- Headers -----

  ghost predicate Level(ds: seq<Digest>, round: Round) {
    forall d :: d in ds ==> d.round + 1 == round
  }

  lemma LevelStep(ds: seq<Digest>, round: Round)
    requires ds != []
    ensures Level(ds, round) <==> ds[0].round + 1 == round && Level(ds[1..], round)
  {
    assert forall d :: d in ds <==> d == ds[0] || d in ds[1..];
  }

  lemma {:induction false} ParentsVerdict(cm: Committee, h: Header, ps: seq<Certified>, ds: seq<Digest>, stake: nat)
    requires |ps| == |ds| && forall i :: 0 <= i < |ps| ==> ps[i].Digest() == ds[i]
    ensures CheckParents(cm, h, ps, stake) ==
            if !Level(ds, h.round) then Err(MalformedHeader(h.id))
            else if stake + StakeOf(cm, ds) < cm.QuorumThreshold() then Err(HeaderRequiresQuorum(h.id))
            else Ok
    decreases |ps|
  {
    hide Committee.QuorumThreshold;
    if ps != [] {
      hide Level;
      assert ps[0].Digest() == ds[0];
      assert forall i :: 0 <= i < |ps[1..]| ==> ps[1..][i].Digest() == ds[1..][i];
      LevelStep(ds, h.round);
      if ds[0].round + 1 == h.round {
        ParentsVerdict(cm, h, ps[1..], ds[1..], stake + cm.Stake(ds[0].origin));
      }
    }
  }

  ghost predicate AllKnown(cm: Committee, s: Core, ds: seq<Digest>) {
    forall d :: d in ds ==> Known(cm, s, d)
  }

  lemma ParentsOf(n: Authority, s: Core, h: Header)
    requires Ordered(n.committee, s)
    ensures var ps := GetParents(n.committee, s.store, h.parents);
            && (ps.Some? <==> AllKnown(n.committee, s, h.parents))
            && (ps.Some? ==>
                  && (ps.value == [] <==> h.parents == [])
                  && CheckParents(n.committee, h, ps.value, 0) ==
                     if !Level(h.parents, h.round) then Err(MalformedHeader(h.id))
                     else if StakeOf(n.committee, h.parents) < n.committee.QuorumThreshold() then Err(HeaderRequiresQuorum(h.id))
                     else Ok)
  {
    hide Fed, ParentsFirst, Committee.QuorumThreshold, Level, CheckParents;
    ParentsFound(n.committee, s.store, h.parents);
    if GetParents(n.committee, s.store, h.parents).Some? {
      ParentsVerdict(n.committee, h, GetParents(n.committee, s.store, h.parents).value, h.parents, 0);
    }
  }

  datatype Outcome = AwaitsParents | Orphan | WrongRound | NoQuorum | AwaitsPayload | VotedBefore | GetsVote

  /** What is to become of a header, from what the core knows. */
  ghost function OutcomeOf(n: Authority, s: Core, h: Header): Outcome {
    if exists d :: d in h.parents && !Known(n.committee, s, d) then AwaitsParents
    else if h.parents == [] then Orphan
    else if !Level(h.parents, h.round) then WrongRound
    else if StakeOf(n.committee, h.parents) < n.committee.QuorumThreshold() then NoQuorum
    else if h.author != n.name && exists b :: b in h.payload && b !in s.store.batches then AwaitsPayload
    else if h.author in At(s.lastVoted, h.round) then VotedBefore
    else GetsVote
  }

  /** The core with `h` among the headers being processed, handed to the waiter, or in the store. */
  ghost function WithProcessing(s: Core, h: Header): Core {
    s.(processing := s.processing[h.round := At(s.processing, h.round) + {h.id}])
  }

  ghost function WithWaiting(s: Core, h: Header): Core {
    WithProcessing(s, h).(waitingHeaders := s.waitingHeaders + {h})
  }

  ghost function WithStored(s: Core, h: Header): Core {
    WithProcessing(s, h).(store := s.store.(headers := s.store.headers[h.id := h]))
  }

  ghost function WithVote(s: Core, h: Header): Core {
    WithStored(s, h).(lastVoted := s.lastVoted[h.round := At(s.lastVoted, h.round) + {h.author}],
                      log := s.log.(voted := s.log.voted + [h]))
  }

  /**
   * What becomes of a header, case by case: it waits for a parent or a batch that is missing, is refused for a parent of a wrong
   * round or for want of a quorum, is stored without a vote if its author has one for the round, or is stored and voted for.
   */
  lemma HeaderFate(n: Authority, s: Core, h: Header)
    requires Ordered(n.committee, s)
    ensures var (t, r) := ProcessHeader(n, s, h); var o := OutcomeOf(n, s, h);
            && (o.AwaitsParents? || o.AwaitsPayload? ==> t == WithWaiting(s, h) && r == Ok)
            && (o.Orphan? ==> t == WithProcessing(s, h) && r == Ok)
            && (o.WrongRound? ==> t == WithProcessing(s, h) && r == Err(MalformedHeader(h.id)))
            && (o.NoQuorum? ==> t == WithProcessing(s, h) && r == Err(HeaderRequiresQuorum(h.id)))
            && (o.VotedBefore? ==> t == WithStored(s, h) && r == Ok)
            && (o.GetsVote? && h.author != n.name ==> t == WithVote(s, h) && r == if h.author in n.committee.stakes then Ok else Panic)
            && (o.GetsVote? ==>
                  s.log.voted + [h] <= t.log.voted && h.author in At(t.lastVoted, h.round) && h.id in t.store.headers)
  {
    hide GetParents, CheckParents, StakeOf, Committee.QuorumThreshold, ProcessVote, Ordered, Known, Level;
    ParentsOf(n, s, h);
    var s3 := RecordVote(StoreHeader(Begin(s, h), h), h);
    if h.author == n.name {
      RecordedOrdered(n, s, h);
      VoteOrdered(n, s3, VoteFor(h, n.name));
      VoteGrows(n, s3, VoteFor(h, n.name));
    }
  }

  lemma RecordedOrdered(n: Authority, s: Core, h: Header)
    requires Ordered(n.committee, s)
    ensures Ordered(n.committee, RecordVote(StoreHeader(Begin(s, h), h), h))
  {
    hide Fed, ParentsFirst, StoreIsSent;
  }

  /** What is never taken back. */
  ghost predicate Grows(s: Core, t: Core) {
    && s.store.headers.Keys <= t.store.headers.Keys && s.log.assembled <= t.log.assembled
    && s.votes.used <= t.votes.used
  }

  lemma StepGrows(n: Authority, s: Core, e: Effect)
    ensures Grows(s, Do(n, s, e))
  {
    hide AppendCertificate, At;
  }

  lemma {:induction false} StepsGrow(n: Authority, s: Core, es: seq<Effect>)
    ensures Grows(s, DoAll(n, s, es))
    decreases |es|
  {
    hide Do;
    if es != [] {
      var m := |es| - 1;
      StepsGrow(n, s, es[..m]);
      StepGrows(n, DoAll(n, s, es[..m]), es[m]);
    }
  }

  lemma VoteGrows(n: Authority, s: Core, v: Vote)
    ensures Grows(s, ProcessVote(n, s, v).0)
  {
    hide ProcessVote, MayAll, DoAll, Grows;
    var es := VoteSteps(n, s, v);
    StepsGrow(n, s, es);
  }

  lemma CertificateGrows(n: Authority, s: Core, c: Certified)
    ensures Grows(s, ProcessCertificate(n, s, c).0)
  {
    hide ProcessCertificate, MayAll, DoAll, Grows;
    var es := CertificateSteps(n, s, c);
    StepsGrow(n, s, es);
  }

  // ----- Votes -----

  /**
   * What becomes of a vote for the current header: a second one by its author changes nothing; a first one is counted; and a
   * certificate over the current header, of all votes counted, comes out exactly when their authors first hold a quorum.
   */
  lemma VoteFate(n: Authority, s: Core, v: Vote, certified: set<Key>)
    requires n.committee.Valid() && Counting(n.committee, s.votes, certified)
    ensures var (t, r) := ProcessVote(n, s, v);
            if v.author in s.votes.used then t == s && r == Err(AuthorityReuse(v.author))
            else
              && v.author in t.votes.used
              && var votes := s.votes.votes + [v.author]; var c := Certified(s.current, votes);
                 if certified == {} && n.committee.Weight(s.votes.used + {v.author}) >= n.committee.QuorumThreshold() then
                   s.log.assembled + [c] <= t.log.assembled
                 else
                   t == s.(votes := t.votes) && r == Ok && t.votes.votes == votes && Counting(n.committee, t.votes, certified)
  {
    hide Committee.Weight, Committee.QuorumThreshold, ProcessCertificate;
    var (votes, o) := AppendVote(n.committee, s.votes, v.author);
    CountingStep(n.committee, s.votes, certified, v.author);
    if o.Quorum? {
      var c := Certified(s.current, o.votes);
      CertificateGrows(n, s.(votes := votes, log := s.log.(assembled := s.log.assembled + [c])), c);
    }
  }

  // ----- Certificates -----

  /** A certificate taken up, or handed back by the waiter, whatever its round. */
  ghost predicate Arrives(n: Authority, hash: Hash, s: Core, e: Event, c: Certified) {
    e == CertificateLoopback(c) || (e == CertificateIn(c) && SanitizeCertificate(n, hash, s, c).Ok?)
  }

  /**
   * What becomes of a certificate: first its header is dealt with, unless it is being processed; if that is not an error, the
   * certificate is stored and sent when all its parents are known, and otherwise waits for them.
   */
  lemma CertificateFate(n: Authority, hash: Hash, s: Core, e: Event, c: Certified)
    requires Arrives(n, hash, s, e, c)
    ensures var (t, r) := Handle(n, hash, s, e);
            var (s1, r1) :=
              if c.header.id in At(s.processing, c.header.round) then (s, Ok) else ProcessHeader(n, s, c.header);
            if r1 != Ok then (t, r) == (s1, r1)
            else if exists d :: d in c.header.parents && !Known(n.committee, s1, d) then
              t == s1.(waitingCertificates := s1.waitingCertificates + {c}) && r == Ok
            else
              && r == Ok && t.log.sent == s1.log.sent + [c]
              && t.store == s1.store.(certificates := s1.store.certificates[c.Digest() := c])
              && t.waitingCertificates == s1.waitingCertificates && t.waitingHeaders == s1.waitingHeaders
              && t.lastVoted == s1.lastVoted && t.processing == s1.processing && t.votes == s1.votes
  {
    hide ProcessHeader, Accept, Deliverable, SanitizeCertificate, Known, At;
    var s1 := if c.header.id in At(s.processing, c.header.round) then s else ProcessHeader(n, s, c.header).0;
    DeliverableIs(n, s1, c);
    AcceptIs(n, s1, c);
  }

  lemma DeliverableIs(n: Authority, s: Core, c: Certified)
    ensures Deliverable(n.committee, s.store, c) <==> forall d :: d in c.header.parents ==> Known(n.committee, s, d)
  {
    hide IsGenesisDigest;
  }

  lemma AcceptIs(n: Authority, s: Core, c: Certified)
    ensures var t := Accept(n, s, c);
            && t.log.sent == s.log.sent + [c]
            && t.store == s.store.(certificates := s.store.certificates[c.Digest() := c])
            && t.waitingCertificates == s.waitingCertificates && t.waitingHeaders == s.waitingHeaders
            && t.lastVoted == s.lastVoted && t.processing == s.processing && t.votes == s.votes
  {
    hide AppendCertificate;
  }

  /** A header handed back by the waiter is dealt with like one that arrives, whatever its round. */
  lemma HeaderResumes(n: Authority, hash: Hash, s: Core, h: Header)
    requires s.gcRound <= h.round && VerifyHeader(n.committee, hash, h).Ok?
    ensures Handle(n, hash, s, HeaderLoopback(h)) == Handle(n, hash, s, HeaderIn(h))
  {
    hide ProcessHeader, VerifyHeader;
  }
}
