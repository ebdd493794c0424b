/**
 * When a core votes twice in one slot, and when that takes it down: the clean-up forgets who was voted for, while headers
 * handed back by a waiter and certificates completed for an own header are not checked against `gcRound`.
 */
module SecondVotes {
  import opened Collections
  import opened Committees
  import opened Dags
  import opened Messages
  import opened Aggregators
  import opened Handlers
  import opened Delivery
  import opened Protocol
  import opened CoreSafety

  /** What a core still remembers is not voted for again: a check against `gcRound` would be enough. */
  lemma RevotesBelowHorizon(n: Authority, s: Core, h: Header)
    requires Remembers(s.gcRound, s.lastVoted, s.log.voted) && Revotes(n, s, h)
    ensures h.round < s.gcRound
  {
    hide Acceptable, At;
  }

  // ----- The vote that breaks the rule -----

  lemma TwoInSlot(voted: seq<Header>, h: Header, after: seq<Header>)
    requires voted + [h] <= after && exists g :: g in voted && InSlot(g, h.author, h.round)
    ensures !VotesOnce(after)
  {
    var i :| 0 <= i < |voted| && InSlot(voted[i], h.author, h.round);
    assert after[i] == voted[i] && after[|voted|] == h;
  }

  lemma RevotedHeader(n: Authority, s: Core, h: Header)
    requires Ordered(n.committee, s) && Revotes(n, s, h)
    ensures !VotesOnce(ProcessHeader(n, s, h).0.log.voted)
  {
    hide ProcessHeader, Acceptable, Ordered, At, VotesOnce;
    VoteExactly(n, s, h);
    TwoInSlot(s.log.voted, h, ProcessHeader(n, s, h).0.log.voted);
  }

  lemma StillTwice(voted: seq<Header>, after: seq<Header>)
    requires voted <= after && !VotesOnce(voted)
    ensures !VotesOnce(after)
  {
  }

  lemma RevotedCertificate(n: Authority, s: Core, c: Certified)
    requires Ordered(n.committee, s) && Revotes(n, s, c.header) && c.header.id !in At(s.processing, c.header.round)
    ensures !VotesOnce(ProcessCertificate(n, s, c).0.log.voted)
  {
    hide ProcessHeader, Ordered, At, VotesOnce, Revotes, Deliverable, AppendCertificate;
    RevotedHeader(n, s, c.header);
  }

  /** Counting a vote, with the certificate recorded that it may complete. */
  function Completed(n: Authority, s: Core, v: Vote): Core {
    var (votes, o) := AppendVote(n.committee, s.votes, v.author);
    s.(votes := votes,
       log := s.log.(assembled := s.log.assembled + (if o.Quorum? then [Certified(s.current, o.votes)] else [])))
  }

  lemma CompletedSame(n: Authority, s: Core, v: Vote)
    requires Ordered(n.committee, s)
    ensures var t := Completed(n, s, v);
            && Ordered(n.committee, t) && t.processing == s.processing && t.current == s.current && t.log.voted == s.log.voted
            && s.votes.used <= t.votes.used
            && forall h :: Revotes(n, t, h) <==> Revotes(n, s, h)
  {
    hide Grounded, ParentsAmong, Fed, StoreIsSent, ParentsFirst, MissingPayload;
    assert Ordered(n.committee, Completed(n, s, v));
    hide Ordered;
  }

  lemma VoteCompletes(n: Authority, s: Core, v: Vote)
    requires AppendVote(n.committee, s.votes, v.author).1.Quorum?
    ensures var c := Certified(s.current, AppendVote(n.committee, s.votes, v.author).1.votes);
            var (t, r) := ProcessCertificate(n, Completed(n, s, v), c);
            ProcessVote(n, s, v) == (t, if r.Ok? then Ok else Panic)
  {
    hide ProcessCertificate;
  }

  lemma RevotedVote(n: Authority, s: Core, v: Vote)
    requires Ordered(n.committee, s) && Revotes(n, s, s.current) && s.current.id !in At(s.processing, s.current.round)
    requires AppendVote(n.committee, s.votes, v.author).1.Quorum?
    ensures !VotesOnce(ProcessVote(n, s, v).0.log.voted)
  {
    hide ProcessCertificate, ProcessVote, Ordered, At, VotesOnce, Revotes, Completed, AppendVote;
    CompletedSame(n, s, v);
    VoteCompletes(n, s, v);
    RevotedCertificate(n, Completed(n, s, v), Certified(s.current, AppendVote(n.committee, s.votes, v.author).1.votes));
  }

  /** Processing such a header casts a second vote for a slot: no other condition is needed. */
  lemma RevoteBreaks(n: Authority, hash: Hash, s: Core, e: Event)
    requires Ordered(n.committee, s) && RevotesOn(n, hash, s, e)
    ensures !VotesOnce(Handle(n, hash, s, e).0.log.voted)
  {
    hide ProcessHeader, ProcessVote, ProcessCertificate, Ordered, At, VotesOnce, Revotes, AppendVote, Acceptable,
      SanitizeHeader, SanitizeVote, SanitizeCertificate;
    match e
    case HeaderIn(h) => RevotedHeader(n, s, h);
    case VoteIn(v) => RevotedVote(n, s, v);
    case CertificateIn(c) => RevotedCertificate(n, s, c);
    case HeaderLoopback(h) => RevotedHeader(n, s, h);
    case CertificateLoopback(c) => RevotedCertificate(n, s, c);
    case OwnHeader(h) =>
      StillOrdered(n, s, h);
      ProposingRevotes(n, s, h);
      RevotedHeader(n, Proposing(s, h), h);
    case BatchStored(_) =>
  }

  lemma ProposingRevotes(n: Authority, s: Core, h: Header)
    requires Revotes(n, s, h)
    ensures Revotes(n, Proposing(s, h), h)
  {
    hide Grounded, ParentsAmong;
  }

  /** Votes are never taken back. */
  lemma VotedGrows(n: Authority, hash: Hash, s: Core, t: Turn)
    requires Ordered(n.committee, s)
    ensures Ordered(n.committee, Step(n, hash, s, t).0) && s.log.voted <= Step(n, hash, s, t).0.log.voted
  {
    hide ProcessHeader, ProcessVote, ProcessCertificate, Ordered, At, SanitizeHeader, SanitizeVote, SanitizeCertificate;
    HandleOrdered(n, hash, s, t.event);
    CleanupOrdered(n, Handle(n, hash, s, t.event).0, t.consensusRound);
    match t.event
    case HeaderIn(h) => HeaderOrdered(n, s, h);
    case VoteIn(v) => VoteOrdered(n, s, v);
    case CertificateIn(c) => CertificateOrdered(n, s, c);
    case HeaderLoopback(h) => HeaderOrdered(n, s, h);
    case CertificateLoopback(c) => CertificateOrdered(n, s, c);
    case OwnHeader(h) =>
      StillOrdered(n, s, h);
      HeaderOrdered(n, Proposing(s, h), h);
    case BatchStored(_) =>
  }

  lemma CleanupOrdered(n: Authority, s: Core, round: Round)
    requires Ordered(n.committee, s)
    ensures Ordered(n.committee, Cleanup(n, s, round)) && Cleanup(n, s, round).log == s.log
  {
    hide Fed, ParentsFirst, StoreIsSent;
    if n.gcDepth < round {
      CleanupFed(n.committee, s, round - n.gcDepth);
    }
  }

  /** Nothing but the header an event goes through gets a vote. */
  lemma OwnCertificateVotes(n: Authority, s: Core, c: Certified)
    requires c.header.id in At(s.processing, c.header.round)
    ensures ProcessCertificate(n, s, c).0.log.voted == s.log.voted
  {
    hide ProcessHeader, At, Deliverable, AppendCertificate;
  }

  /** While the current header is being processed a vote for it brings no further vote. */
  lemma CountingVotes(n: Authority, s: Core, v: Vote)
    requires Ordered(n.committee, s) && s.current.id in At(s.processing, s.current.round)
    ensures ProcessVote(n, s, v).0.log.voted == s.log.voted
  {
    hide ProcessCertificate, Ordered, At, Completed, AppendVote;
    CompletedSame(n, s, v);
    if AppendVote(n.committee, s.votes, v.author).1.Quorum? {
      VoteCompletes(n, s, v);
      OwnCertificateVotes(n, Completed(n, s, v), Certified(s.current, AppendVote(n.committee, s.votes, v.author).1.votes));
    } else {
      JustCounted(n, s, v);
    }
  }

  lemma JustCounted(n: Authority, s: Core, v: Vote)
    requires !AppendVote(n.committee, s.votes, v.author).1.Quorum?
    ensures ProcessVote(n, s, v).0.log.voted == s.log.voted
  {
    hide ProcessCertificate;
  }

  /** At most one vote more, for `h`, whose slot is not among those remembered. */
  ghost predicate AtMostOneMore(n: Authority, s: Core, h: Header, voted: seq<Header>) {
    voted == s.log.voted || (voted == s.log.voted + [h] && Acceptable(n, s, h) && h.author !in At(s.lastVoted, h.round))
  }

  lemma HeaderVotes(n: Authority, hash: Hash, w: World, s: Core, h: Header)
    requires Inv(n, hash, w, s) && (SoundHeader(n.committee, hash, w, h) || h.round == 0) && !RevotesFor(n, s, h)
    ensures AtMostOneMore(n, s, h, ProcessHeader(n, s, h).0.log.voted)
  {
    hide ProcessHeader, Inv, SoundHeader, Ordered, At, Acceptable;
    InvOrdered(n, hash, w, s);
    if Acceptable(n, s, h) {
      AcceptableRound(n, s, h);
      SoundAuthor(n, hash, w, s, h);
    }
    HeaderOutcome(n, s, h);
  }

  lemma CertificateVotes(n: Authority, hash: Hash, w: World, s: Core, c: Certified)
    requires Inv(n, hash, w, s) && Acknowledged(n.committee, hash, w, c)
    requires c.header.id !in At(s.processing, c.header.round) ==> !RevotesFor(n, s, c.header)
    ensures var voted := ProcessCertificate(n, s, c).0.log.voted;
            && AtMostOneMore(n, s, c.header, voted)
            && (c.header.id in At(s.processing, c.header.round) ==> voted == s.log.voted)
  {
    hide ProcessHeader, Inv, SoundHeader, At, Deliverable, AppendCertificate, Acceptable, RevotesFor;
    if c.header.id !in At(s.processing, c.header.round) {
      HeaderVotes(n, hash, w, s, c.header);
    }
  }

  lemma VoteVotes(n: Authority, hash: Hash, w: World, s: Core, v: Vote)
    requires Inv(n, hash, w, s) && 0 < n.committee.Stake(v.author) && VoteBacked(w, v.author, s.current)
    requires AppendVote(n.committee, s.votes, v.author).1.Quorum? && s.current.id !in At(s.processing, s.current.round) ==>
               !RevotesFor(n, s, s.current)
    ensures ProcessVote(n, s, v).0.log.voted == s.log.voted
  {
    hide Inv, At, ProcessCertificate, ProcessVote, Acceptable, Backed, Completed, AppendVote, Ordered, Revotes;
    InvOrdered(n, hash, w, s);
    if s.current.id in At(s.processing, s.current.round) {
      CountingVotes(n, s, v);
    } else if AppendVote(n.committee, s.votes, v.author).1.Quorum? {
      var t := Completed(n, s, v);
      CompletedSame(n, s, v);
      CompletedKept(n, hash, w, s, v);
      VoteCompletes(n, s, v);
      CertificateVotes(n, hash, w, t, Certified(s.current, AppendVote(n.committee, s.votes, v.author).1.votes));
      CompletedOwn(n, hash, w, s, v);
    } else {
      JustCounted(n, s, v);
    }
  }

  /** The own header of a completed certificate has its vote; if that was forgotten, it is voted for again. */
  lemma CompletedOwn(n: Authority, hash: Hash, w: World, s: Core, v: Vote)
    requires Inv(n, hash, w, s) && 0 < n.committee.Stake(v.author) && VoteBacked(w, v.author, s.current)
    requires AppendVote(n.committee, s.votes, v.author).1.Quorum? && !RevotesFor(n, s, s.current)
    ensures var t := Completed(n, s, v);
            forall voted :: AtMostOneMore(n, t, s.current, voted) ==> voted == s.log.voted
  {
    hide Inv, Acceptable, Backed, AppendVote, At;
    if s.log.proposed == [] {
      NothingToCertify(n, hash, w, s, v);
    }
    CurrentRevotes(n, hash, w, s);
  }

  lemma OwnHeaderVotes(n: Authority, hash: Hash, w: World, s: Core, h: Header)
    requires Inv(n, hash, w, s) && Admissible(n, hash, w, s, OwnHeader(h))
    ensures ProcessOwnHeader(n, s, h).0.log.voted == s.log.voted + [h] && !Revotes(n, s, h)
  {
    hide Inv, Voted, ProcessVote, ProcessOwnHeader, At, VerifyHeader, NoRepeats, Grounded, ParentsAmong, Ordered, Acceptable;
    OwnHeaderFresh(n, hash, w, s, h);
    FreshIsFirst(n, s, h);
    InvOrdered(n, hash, w, s);
    BaseOf(n, hash, w, s);
    OwnHeaderCounted(n, hash, w, s, h);
    VotedFields(s, h);
    VotedOrdered(n, s, h);
    CountingVotes(n, Voted(s, h), VoteFor(h, n.name));
  }

  lemma BaseOf(n: Authority, hash: Hash, w: World, s: Core)
    requires Inv(n, hash, w, s)
    ensures Base(n, hash, w, s)
  {
  }

  lemma VotedOrdered(n: Authority, s: Core, h: Header)
    requires Ordered(n.committee, s)
    ensures Ordered(n.committee, Voted(s, h))
  {
    hide Fed, ParentsFirst, StoreIsSent;
  }

  /** A message that does not make the core vote again for its own header adds at most one vote, to a slot not remembered. */
  lemma EventVotes(n: Authority, hash: Hash, w: World, s: Core, e: Event)
    requires Inv(n, hash, w, s) && Admissible(n, hash, w, s, e) && !RevotesOwn(n, hash, s, e)
    ensures var voted := Handle(n, hash, s, e).0.log.voted; var p := Processed(n, hash, s, e);
            voted == s.log.voted || (p.Some? && voted == s.log.voted + [p.value] && (Revotes(n, s, p.value) || Unvoted(s, p.value)))
  {
    hide Inv, SoundHeader, Acknowledged, ProcessHeader, ProcessVote, ProcessCertificate, ProcessOwnHeader, AppendVote,
      Grounded, ParentsAmong, VerifyHeader, WorldSound, RevotesFor, At, IsGenesis, SanitizeHeader, SanitizeVote,
      SanitizeCertificate, Acceptable;
    WorldOf(n, hash, w, s);
    match e
    case HeaderIn(h) =>
      if SanitizeHeader(n, hash, s, h).Ok? {
        SanitizedHeader(n, hash, s, h);
        HeaderAuthentic(n.committee, hash, w, h);
        HeaderVotes(n, hash, w, s, h);
      }
    case VoteIn(v) =>
      if SanitizeVote(n, s, v).Ok? {
        VoteInKeeps(n, hash, w, s, v);
        VoteVotes(n, hash, w, s, v);
      }
    case CertificateIn(c) =>
      if SanitizeCertificate(n, hash, s, c).Ok? {
        CertificateInKeeps(n, hash, w, s, c);
        CertificateVotes(n, hash, w, s, c);
      }
    case HeaderLoopback(h) => HeaderVotes(n, hash, w, s, h);
    case CertificateLoopback(c) => CertificateVotes(n, hash, w, s, c);
    case OwnHeader(h) =>
      OwnHeaderFresh(n, hash, w, s, h);
      OwnHeaderVotes(n, hash, w, s, h);
    case BatchStored(_) =>
  }

  ghost predicate Unvoted(s: Core, h: Header) {
    forall g :: g in s.log.voted ==> !InSlot(g, h.author, h.round)
  }

  lemma OnceMore(voted: seq<Header>, h: Header)
    requires VotesOnce(voted) && forall g :: g in voted ==> !InSlot(g, h.author, h.round)
    ensures VotesOnce(voted + [h])
  {
  }

  /** A turn casts a second vote for a slot exactly if it processes a header whose slot had a vote that was forgotten. */
  lemma OneVoteStep(n: Authority, hash: Hash, w: World, s: Core, t: Turn)
    requires Inv(n, hash, w, s) && Admissible(n, hash, w, s, t.event) && VotesOnce(s.log.voted)
    ensures VotesOnce(Step(n, hash, s, t).0.log.voted) <==> !RevotesOn(n, hash, s, t.event)
  {
    hide Admissible, Handle, Revotes, Ordered, VotesOnce, Step, Inv, WorldSound, Processed;
    CleanupLog(n, hash, s, t);
    if RevotesOn(n, hash, s, t.event) {
      InvOrdered(n, hash, w, s);
      RevoteBreaks(n, hash, s, t.event);
    } else {
      EventVotes(n, hash, w, s, t.event);
      if Handle(n, hash, s, t.event).0.log.voted != s.log.voted {
        OnceMore(s.log.voted, Processed(n, hash, s, t.event).value);
      }
    }
  }

  lemma CleanupLog(n: Authority, hash: Hash, s: Core, t: Turn)
    ensures Step(n, hash, s, t).0.log == Handle(n, hash, s, t.event).0.log
  {
    hide Handle, From;
  }

  // ----- The vote that takes the core down -----

  lemma OwnVoteUsed(n: Authority, hash: Hash, w: World, s: Core, h: Header)
    requires Inv(n, hash, w, s) && Revotes(n, s, h) && h.author == n.name
    ensures n.name in s.votes.used && s.log.proposed != []
  {
    hide VerifyHeader, NoRepeats, Grounded, ParentsAmong, Acceptable, At;
    var g :| g in s.log.voted && InSlot(g, h.author, h.round);
    assert Recorded(n, w, s.log.voted, s.log.proposed);
    assert SoundHeader(n.committee, hash, w, g);
    assert g in Members(s.log.proposed);
  }

  lemma OwnHeaderPanics(n: Authority, s: Core, h: Header)
    requires Ordered(n.committee, s) && Acceptable(n, s, h) && h.author !in At(s.lastVoted, h.round)
    requires h.author == n.name && n.name in s.votes.used
    ensures ProcessHeader(n, s, h).1.Panic?
  {
    hide GetParents, CheckParents, ParentsFirst, StakeOf, Committee.QuorumThreshold, Fed, StoreIsSent;
    KnownParents(n, s, h);
  }

  /** A core panics on a header exactly if it is an own one whose vote was forgotten: its name is used up already. */
  lemma HeaderPanicsExactly(n: Authority, hash: Hash, w: World, s: Core, h: Header)
    requires Inv(n, hash, w, s) && (SoundHeader(n.committee, hash, w, h) || h.round == 0)
    ensures ProcessHeader(n, s, h).1.Panic? <==> RevotesFor(n, s, h)
  {
    hide ProcessHeader, Inv, SoundHeader, Ordered, At, Acceptable;
    InvOrdered(n, hash, w, s);
    if Acceptable(n, s, h) {
      AcceptableRound(n, s, h);
      SoundAuthor(n, hash, w, s, h);
    }
    if Revotes(n, s, h) && h.author == n.name {
      OwnVoteUsed(n, hash, w, s, h);
      OwnHeaderPanics(n, s, h);
    } else {
      HeaderOutcome(n, s, h);
    }
  }

  lemma CertificatePanicsExactly(n: Authority, hash: Hash, w: World, s: Core, c: Certified)
    requires Inv(n, hash, w, s) && Acknowledged(n.committee, hash, w, c)
    ensures ProcessCertificate(n, s, c).1.Panic? <==>
            c.header.id !in At(s.processing, c.header.round) && RevotesFor(n, s, c.header)
  {
    hide ProcessHeader, Inv, SoundHeader, At, Revotes, Deliverable, AppendCertificate;
    HeaderPanicsExactly(n, hash, w, s, c.header);
  }

  lemma AcceptableOk(n: Authority, hash: Hash, w: World, s: Core, c: Certified)
    requires Inv(n, hash, w, s) && Acknowledged(n.committee, hash, w, c) && Acceptable(n, s, c.header)
    ensures ProcessCertificate(n, s, c).1.Ok? || ProcessCertificate(n, s, c).1.Panic?
  {
    hide ProcessHeader, Inv, At, Deliverable, AppendCertificate, Acceptable, SoundHeader;
    if c.header.id !in At(s.processing, c.header.round) && !ProcessHeader(n, s, c.header).1.Panic? {
      HeaderPanicsExactly(n, hash, w, s, c.header);
      InvOrdered(n, hash, w, s);
      AcceptableRound(n, s, c.header);
      SoundAuthor(n, hash, w, s, c.header);
      HeaderOutcome(n, s, c.header);
    }
  }

  /**
   * A vote takes the core down exactly if it completes a quorum for the own header after the clean-up has forgotten both
   * that this header is being processed and that the core voted for it: the core votes for it again, and may not.
   */
  lemma LateQuorumExactly(n: Authority, hash: Hash, w: World, s: Core, v: Vote)
    requires Inv(n, hash, w, s) && s.log.proposed != []
    requires 0 < n.committee.Stake(v.author) && VoteBacked(w, v.author, s.current)
    ensures ProcessVote(n, s, v).1.Panic? <==>
            && AppendVote(n.committee, s.votes, v.author).1.Quorum?
            && s.current.id !in At(s.processing, s.current.round)
            && n.name !in At(s.lastVoted, s.current.round)
  {
    hide Inv, Ordered, At, ProcessCertificate, ProcessVote, Acceptable, Backed, Completed, AppendVote;
    CurrentAcceptable(n, hash, w, s);
    if AppendVote(n.committee, s.votes, v.author).1.Quorum? {
      var t := Completed(n, s, v);
      var c := Certified(s.current, AppendVote(n.committee, s.votes, v.author).1.votes);
      InvOrdered(n, hash, w, s);
      CompletedSame(n, s, v);
      CompletedKept(n, hash, w, s, v);
      VoteCompletes(n, s, v);
      CurrentAcceptable(n, hash, w, t);
      AcceptableOk(n, hash, w, t, c);
      CertificatePanicsExactly(n, hash, w, t, c);
      assert InSlot(s.current, s.current.author, s.current.round);
    } else {
      VoteOnlyCounts(n, s, v);
    }
  }

  lemma VoteOnlyCounts(n: Authority, s: Core, v: Vote)
    requires !AppendVote(n.committee, s.votes, v.author).1.Quorum?
    ensures !ProcessVote(n, s, v).1.Panic?
  {
    hide ProcessCertificate;
  }

  lemma CompletedKept(n: Authority, hash: Hash, w: World, s: Core, v: Vote)
    requires Inv(n, hash, w, s) && 0 < n.committee.Stake(v.author) && VoteBacked(w, v.author, s.current)
    requires AppendVote(n.committee, s.votes, v.author).1.Quorum?
    ensures Inv(n, hash, w, Completed(n, s, v)) && Completed(n, s, v).log.proposed == s.log.proposed
    ensures Backed(n.committee, hash, w, Certified(s.current, AppendVote(n.committee, s.votes, v.author).1.votes))
  {
    hide Inv, Backed, AppendVote;
    var (votes, o) := AppendVote(n.committee, s.votes, v.author);
    VoteAppended(n, hash, w, s, v);
    AssembledKept(n, hash, w, s.(votes := votes), Certified(s.current, o.votes));
  }

  /** A vote for no header at all completes nothing. */
  lemma NothingToCertify(n: Authority, hash: Hash, w: World, s: Core, v: Vote)
    requires Inv(n, hash, w, s) && s.log.proposed == []
    requires 0 < n.committee.Stake(v.author) && VoteBacked(w, v.author, s.current)
    ensures !AppendVote(n.committee, s.votes, v.author).1.Quorum?
  {
    hide Inv, Backed, AppendVote;
    VoteAppended(n, hash, w, s, v);
  }

  lemma CurrentRevotes(n: Authority, hash: Hash, w: World, s: Core)
    requires Inv(n, hash, w, s) && s.log.proposed != []
    ensures s.current.author == n.name && (Revotes(n, s, s.current) <==> n.name !in At(s.lastVoted, s.current.round))
  {
    hide Inv, Acceptable, At;
    CurrentAcceptable(n, hash, w, s);
    assert InSlot(s.current, s.current.author, s.current.round);
  }

  /** An admissible message takes the core down exactly if it makes the core vote a second time for an own header. */
  lemma PanicsExactly(n: Authority, hash: Hash, w: World, s: Core, e: Event)
    requires Inv(n, hash, w, s) && Admissible(n, hash, w, s, e)
    ensures Handle(n, hash, s, e).1.Panic? <==> RevotesOwn(n, hash, s, e)
  {
    hide Inv, SoundHeader, Acknowledged, ProcessHeader, ProcessVote, ProcessCertificate, ProcessOwnHeader, AppendVote,
      Grounded, ParentsAmong, VerifyHeader, WorldSound, Revotes, At, IsGenesis, SanitizeHeader, SanitizeVote, SanitizeCertificate;
    SanitizeNeverPanics(n, hash, s, e);
    WorldOf(n, hash, w, s);
    match e
    case HeaderIn(h) =>
      if SanitizeHeader(n, hash, s, h).Ok? {
        SanitizedHeader(n, hash, s, h);
        HeaderAuthentic(n.committee, hash, w, h);
        HeaderPanicsExactly(n, hash, w, s, h);
      }
    case VoteIn(v) =>
      if SanitizeVote(n, s, v).Ok? {
        VoteInKeeps(n, hash, w, s, v);
        if s.log.proposed == [] {
          NothingToCertify(n, hash, w, s, v);
          VoteOnlyCounts(n, s, v);
        } else {
          CurrentRevotes(n, hash, w, s);
          LateQuorumExactly(n, hash, w, s, v);
        }
      }
    case CertificateIn(c) =>
      if SanitizeCertificate(n, hash, s, c).Ok? {
        CertificateInKeeps(n, hash, w, s, c);
        CertificatePanicsExactly(n, hash, w, s, c);
      }
    case HeaderLoopback(h) =>
      HeaderPanicsExactly(n, hash, w, s, h);
    case CertificateLoopback(c) =>
      CertificatePanicsExactly(n, hash, w, s, c);
    case OwnHeader(h) =>
      OwnHeaderKeeps(n, hash, w, s, h);
      OwnHeaderFresh(n, hash, w, s, h);
      FreshIsFirst(n, s, h);
    case BatchStored(_) =>
  }

  lemma SanitizedHeader(n: Authority, hash: Hash, s: Core, h: Header)
    requires SanitizeHeader(n, hash, s, h).Ok?
    ensures VerifyHeader(n.committee, hash, h).Ok?
  {
    hide VerifyHeader;
  }

  lemma FreshIsFirst(n: Authority, s: Core, h: Header)
    requires forall g :: g in s.log.voted ==> !InSlot(g, h.author, h.round)
    ensures !Revotes(n, s, h)
  {
  }
}
