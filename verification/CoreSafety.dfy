/** Every admissible message keeps the invariant of a core, and none makes it panic. */
module CoreSafety {
  import opened Collections
  import opened Committees
  import opened Dags
  import opened Messages
  import opened Aggregators
  import opened Handlers
  import opened Delivery
  import opened Protocol

  // ----- A wider world -----

  lemma SoundWidens(cm: Committee, hash: Hash, w: World, w': World, h: Header)
    requires Wider(w, w') && SoundHeader(cm, hash, w, h)
    ensures SoundHeader(cm, hash, w', h)
  {
    hide VerifyHeader, NoRepeats;
  }

  lemma BackedWidens(cm: Committee, hash: Hash, w: World, w': World, c: Certified)
    requires Wider(w, w') && Backed(cm, hash, w, c)
    ensures Backed(cm, hash, w', c)
  {
    hide VerifyHeader, NoRepeats, SoundHeader, QuorumOfVotes;
    SoundWidens(cm, hash, w, w', c.header);
  }

  /** All that grows with the world, for one core. */
  lemma PiecesWiden(cm: Committee, hash: Hash, w: World, w': World)
    requires Wider(w, w')
    ensures forall xs :: WaitingSound(cm, hash, w, xs) ==> WaitingSound(cm, hash, w', xs)
    ensures forall xs, ds :: VotedSound(cm, hash, w, xs, ds) ==> VotedSound(cm, hash, w', xs, ds)
    ensures forall xs :: SentSound(cm, hash, w, xs) ==> SentSound(cm, hash, w', xs)
    ensures forall xs :: SuspendedSound(cm, hash, w, xs) ==> SuspendedSound(cm, hash, w', xs)
    ensures forall votes, h :: VotesSound(cm, w, votes, h) ==> VotesSound(cm, w', votes, h)
    ensures forall h :: SoundHeader(cm, hash, w, h) ==> SoundHeader(cm, hash, w', h)
    ensures forall c :: Acknowledged(cm, hash, w, c) ==> Acknowledged(cm, hash, w', c)
  {
    forall h | SoundHeader(cm, hash, w, h)
      ensures SoundHeader(cm, hash, w', h)
    {
      SoundWidens(cm, hash, w, w', h);
    }
    forall c | Backed(cm, hash, w, c)
      ensures Backed(cm, hash, w', c)
    {
      BackedWidens(cm, hash, w, w', c);
    }
    assert forall k, h :: VoteBacked(w, k, h) ==> VoteBacked(w', k, h);
    hide Wider, SoundHeader, Backed, IsGenesis, Grounded, ParentsAmong, Counting, VoteBacked;
  }

  lemma InvWidens(n: Authority, hash: Hash, w: World, w': World, s: Core)
    requires Inv(n, hash, w, s) && Wider(w, w') && WorldSound(n.committee, hash, w')
    requires Recorded(n, w', s.log.voted, s.log.proposed)
    ensures Inv(n, hash, w', s)
  {
    PiecesWiden(n.committee, hash, w, w');
    hide Wider, WorldSound, Recorded, WaitingSound, VotedSound, SentSound, SuspendedSound, VotesSound, SoundHeader;
  }

  // ----- The pieces of the handlers -----

  lemma OwnKeeps(n: Authority, hash: Hash, w: World, w': World, s: Core, t: Core)
    requires OwnSound(n, hash, w, s) && Wider(w, w') && Extends(s, t) && s.votes.used <= t.votes.used
    ensures OwnSound(n, hash, w', t)
  {
    PiecesWiden(n.committee, hash, w, w');
    hide SoundHeader, Wider;
  }

  lemma BeginKeeps(n: Authority, hash: Hash, w: World, s: Core, h: Header)
    requires Base(n, hash, w, s)
    ensures Base(n, hash, w, Begin(s, h)) && Base(n, hash, w, StoreHeader(s, h))
  {
    hide WorldSound, Recorded, WaitingSound, VotedSound, SentSound, SuspendedSound, VotesSound, SoundHeader, Remembers;
  }

  lemma SuspendKeeps(n: Authority, hash: Hash, w: World, s: Core, h: Header)
    requires Base(n, hash, w, s) && (SoundHeader(n.committee, hash, w, h) || h.round == 0)
    ensures Base(n, hash, w, s.(waitingHeaders := s.waitingHeaders + {h}))
  {
    hide WorldSound, Recorded, VotedSound, SentSound, SuspendedSound, VotesSound, SoundHeader, Remembers;
  }

  lemma VoteRemembered(gcRound: Round, lastVoted: map<Round, set<Key>>, voted: seq<Header>, h: Header)
    requires Remembers(gcRound, lastVoted, voted)
    ensures Remembers(gcRound, Add(lastVoted, h.round, h.author), voted + [h])
  {
    forall r, k | k in At(Add(lastVoted, h.round, h.author), r)
      ensures exists g :: g in voted + [h] && InSlot(g, k, r)
    {
      if k in At(lastVoted, r) {
        var g :| g in voted && InSlot(g, k, r);
        assert g in voted + [h];
      } else {
        assert InSlot(h, k, r) && h in voted + [h];
      }
    }
  }

  lemma GrowVote(n: Authority, hash: Hash, w: World, s: Core, h: Header)
    requires WorldSound(n.committee, hash, w) && Recorded(n, w, s.log.voted, s.log.proposed)
    requires VerifyHeader(n.committee, hash, h).Ok? && 0 < h.round
    ensures var t := RecordVote(s, h); var w' := Grow(w, n.name, t);
            WorldSound(n.committee, hash, w') && Wider(w, w') && Recorded(n, w', t.log.voted, t.log.proposed)
  {
    hide VerifyHeader, Injective, Committee.Weight, At;
    var w' := Grow(w, n.name, RecordVote(s, h));
    assert Members(s.log.voted + [h]) == Members(s.log.voted) + {h};
    assert w'.votes.Keys == w.votes.Keys && w'.proposals.Keys == w.proposals.Keys;
  }

  lemma VotedSoundExtend(cm: Committee, hash: Hash, w: World, voted: seq<Header>, known: set<Digest>, h: Header)
    requires VotedSound(cm, hash, w, voted, known)
    requires SoundHeader(cm, hash, w, h) && Grounded(cm, h) && ParentsAmong(cm, h.parents, known)
    ensures VotedSound(cm, hash, w, voted + [h], known)
  {
    hide SoundHeader, Grounded, ParentsAmong;
  }

  lemma RecordVoteKeeps(n: Authority, hash: Hash, w: World, s: Core, h: Header)
    requires Base(n, hash, w, s) && SoundHeader(n.committee, hash, w, h)
    requires Grounded(n.committee, h) && ParentsAmong(n.committee, h.parents, s.store.certificates.Keys)
    ensures var t := RecordVote(s, h); var w' := Grow(w, n.name, t);
            Base(n, hash, w', t) && Wider(w, w') && SoundHeader(n.committee, hash, w', h)
  {
    var t := RecordVote(s, h);
    var w' := Grow(w, n.name, t);
    assert VerifyHeader(n.committee, hash, h).Ok?;
    assert 0 < h.round by {
      assert h.parents[0] in h.parents;
    }
    GrowVote(n, hash, w, s, h);
    VoteRemembered(s.gcRound, s.lastVoted, s.log.voted, h);
    PiecesWiden(n.committee, hash, w, w');
    VotedSoundExtend(n.committee, hash, w', s.log.voted, s.store.certificates.Keys, h);
    assert Ordered(n.committee, t);
    hide Ordered, Wider, WorldSound, Recorded, WaitingSound, VotedSound, SentSound, SuspendedSound, VotesSound, SoundHeader,
      Grounded, ParentsAmong, Remembers, Grow;
  }

  lemma AcceptKeeps(n: Authority, hash: Hash, w: World, s: Core, c: Certified)
    requires Base(n, hash, w, s) && Acknowledged(n.committee, hash, w, c)
    requires Deliverable(n.committee, s.store, c)
    ensures Base(n, hash, w, Accept(n, s, c))
  {
    AcceptOrdered(n, s, c);
    assert VotedSound(n.committee, hash, w, s.log.voted, s.store.certificates[c.Digest() := c].Keys) by {
      hide SoundHeader, Grounded;
    }
    assert SentSound(n.committee, hash, w, s.log.sent + [c]) by {
      hide Acknowledged;
    }
    hide WorldSound, Recorded, WaitingSound, VotedSound, SentSound, SuspendedSound, VotesSound, SoundHeader, Remembers,
      Acknowledged, AppendCertificate, Deliverable, Ordered;
  }

  lemma SuspendCertificateKeeps(n: Authority, hash: Hash, w: World, s: Core, c: Certified)
    requires Base(n, hash, w, s) && Acknowledged(n.committee, hash, w, c)
    ensures Base(n, hash, w, s.(waitingCertificates := s.waitingCertificates + {c}))
  {
    hide WorldSound, Recorded, WaitingSound, VotedSound, SentSound, VotesSound, SoundHeader, Remembers, Acknowledged;
  }

  /** Counting a vote: the certificate, if one comes out, has a quorum of distinct votes. */
  lemma AppendVoteSound(cm: Committee, w: World, votes: Votes, h: Header, author: Key)
    requires cm.Valid() && VotesSound(cm, w, votes, h) && 0 < cm.Stake(author) && VoteBacked(w, author, h)
    ensures var (a, o) := AppendVote(cm, votes, author);
            && VotesSound(cm, w, a, h)
            && votes.used <= a.used && (!o.Reused? ==> author in a.used)
            && (o.Quorum? ==> QuorumOfVotes(cm, o.votes) && forall k :: k in o.votes ==> VoteBacked(w, k, h))
  {
    hide Committee.Weight, VoteBacked;
    var (a, o) := AppendVote(cm, votes, author);
    var certified :| Counting(cm, votes, certified);
    CountingStep(cm, votes, certified, author);
    if o.Quorum? {
      assert Counting(cm, a, a.used) && author in a.used;
    }
  }

  // ----- The handlers -----

  /** The world after one core went from what it had signed to what `t` has. */
  ghost predicate Kept(n: Authority, hash: Hash, w: World, t: Core) {
    var w' := Grow(w, n.name, t);
    Inv(n, hash, w', t) && Wider(w, w')
  }

  lemma KeptSame(n: Authority, hash: Hash, w: World, s: Core, t: Core)
    requires Base(n, hash, w, s) && OwnSound(n, hash, w, s) && Base(n, hash, w, t) && Extends(s, t)
    requires s.votes.used <= t.votes.used
    ensures Kept(n, hash, w, t)
  {
    hide WorldSound, WaitingSound, VotedSound, SentSound, SuspendedSound, VotesSound, Remembers, Ordered, SoundHeader, At;
    assert Recorded(n, w, t.log.voted, t.log.proposed);
    assert Grow(w, n.name, t) == w;
    assert Wider(w, w);
    OwnKeeps(n, hash, w, w, s, t);
  }

  /** The ways a header that calls for no own vote can end. */
  lemma HeaderOutcome(n: Authority, s: Core, h: Header)
    requires Ordered(n.committee, s) && (Acceptable(n, s, h) ==> h.author in n.committee.stakes)
    requires h.author == n.name && Acceptable(n, s, h) ==> n.name in At(s.lastVoted, h.round)
    ensures var (t, r) := ProcessHeader(n, s, h); var s1 := Begin(s, h);
            && !r.Panic? && (Acceptable(n, s, h) ==> r.Ok?)
            && (|| t == s1
               || t == s1.(waitingHeaders := s1.waitingHeaders + {h})
               || t == StoreHeader(s1, h)
               || (t == RecordVote(StoreHeader(s1, h), h) && Acceptable(n, s, h) && h.author !in At(s.lastVoted, h.round)))
  {
    hide GetParents, CheckParents, ParentsFirst, StakeOf, Committee.QuorumThreshold, Fed, StoreIsSent;
    KnownParents(n, s, h);
  }

  lemma AcceptableRound(n: Authority, s: Core, h: Header)
    requires Acceptable(n, s, h)
    ensures 0 < h.round
  {
    assert h.parents[0] in h.parents;
  }

  lemma SoundAuthor(n: Authority, hash: Hash, w: World, s: Core, h: Header)
    requires Inv(n, hash, w, s) && SoundHeader(n.committee, hash, w, h)
    ensures h.author in n.committee.stakes
    ensures h.author == n.name ==> h in s.log.proposed && h in s.log.voted && InSlot(h, n.name, h.round)
  {
    assert Recorded(n, w, s.log.voted, s.log.proposed);
  }

  /** A header that comes with the rest of the network: sound, or of round 0 and never voted for. */
  lemma HeaderKeeps(n: Authority, hash: Hash, w: World, s: Core, h: Header)
    requires Inv(n, hash, w, s) && (SoundHeader(n.committee, hash, w, h) || h.round == 0) && !RevotesFor(n, s, h)
    ensures var (t, r) := ProcessHeader(n, s, h);
            && !r.Panic? && (Acceptable(n, s, h) ==> r.Ok?)
            && Kept(n, hash, w, t) && Extends(s, t) && t.votes == s.votes
  {
    hide ProcessHeader, Base, OwnSound, SoundHeader, Extends, Kept, Ordered, Acceptable, Grounded, ParentsAmong, At;
    var t := ProcessHeader(n, s, h).0;
    var s1 := Begin(s, h);
    var s2 := StoreHeader(s1, h);
    InvOrdered(n, hash, w, s);
    if Acceptable(n, s, h) {
      AcceptableRound(n, s, h);
      SoundAuthor(n, hash, w, s, h);
    }
    HeaderOutcome(n, s, h);
    HeaderOrdered(n, s, h);
    BeginKeeps(n, hash, w, s, h);
    BeginKeeps(n, hash, w, s1, h);
    SuspendKeeps(n, hash, w, s1, h);
    if t == s1 || t == s2 || t == s1.(waitingHeaders := s1.waitingHeaders + {h}) {
      KeptSame(n, hash, w, s, t);
    } else {
      AcceptableIs(n, s, h);
      RecordVoteKeeps(n, hash, w, s2, h);
      OwnKeeps(n, hash, w, Grow(w, n.name, t), s, t);
      KeptWider(n, hash, w, t);
    }
  }

  lemma AcceptableIs(n: Authority, s: Core, h: Header)
    requires Acceptable(n, s, h)
    ensures Grounded(n.committee, h) && ParentsAmong(n.committee, h.parents, s.store.certificates.Keys)
  {
  }

  lemma KeptWider(n: Authority, hash: Hash, w: World, t: Core)
    requires var w' := Grow(w, n.name, t); Base(n, hash, w', t) && OwnSound(n, hash, w', t) && Wider(w, w')
    ensures Kept(n, hash, w, t)
  {
  }

  lemma KeptThen(n: Authority, hash: Hash, w: World, t: Core, u: Core)
    requires Kept(n, hash, w, t) && Kept(n, hash, Grow(w, n.name, t), u)
    ensures Kept(n, hash, w, u)
  {
    hide Inv;
    assert Grow(Grow(w, n.name, t), n.name, u) == Grow(w, n.name, u);
  }

  /** The state and result once the header inside a certificate is dealt with. */
  ghost function AfterHeader(n: Authority, s: Core, c: Certified): (Core, Result) {
    if c.header.id in At(s.processing, c.header.round) then (s, Ok) else ProcessHeader(n, s, c.header)
  }

  lemma AfterHeaderKeeps(n: Authority, hash: Hash, w: World, s: Core, c: Certified)
    requires Inv(n, hash, w, s) && Acknowledged(n.committee, hash, w, c)
    requires c.header.id !in At(s.processing, c.header.round) ==> !RevotesFor(n, s, c.header)
    ensures var (t, r) := AfterHeader(n, s, c);
            && !r.Panic? && (Acceptable(n, s, c.header) ==> r.Ok?)
            && Kept(n, hash, w, t) && Wider(w, Grow(w, n.name, t))
  {
    hide ProcessHeader, SoundHeader, Extends, At, Acceptable, RevotesFor;
    if AfterHeader(n, s, c).0 == s {
      ExtendsSame(s);
      KeptSame(n, hash, w, s, s);
    }
    if c.header.id !in At(s.processing, c.header.round) {
      HeaderKeeps(n, hash, w, s, c.header);
    }
  }

  /** A certificate whose header does not call for a second vote. */
  lemma CertificateKeeps(n: Authority, hash: Hash, w: World, s: Core, c: Certified)
    requires Inv(n, hash, w, s) && Acknowledged(n.committee, hash, w, c)
    requires c.header.id !in At(s.processing, c.header.round) ==> !RevotesFor(n, s, c.header)
    ensures var (t, r) := ProcessCertificate(n, s, c);
            !r.Panic? && (Acceptable(n, s, c.header) ==> r.Ok?) && Kept(n, hash, w, t)
  {
    hide Inv, Acknowledged, Grow, At, Deliverable, Accept, ProcessHeader, RevotesFor, Acceptable;
    var (s1, r1) := AfterHeader(n, s, c);
    var w1 := Grow(w, n.name, s1);
    AfterHeaderKeeps(n, hash, w, s, c);
    hide Wider;
    PiecesWiden(n.committee, hash, w, w1);
    StoredKeeps(n, hash, w1, s1, c);
    var t := ProcessCertificate(n, s, c).0;
    if t != s1 {
      KeptThen(n, hash, w, s1, t);
    }
  }

  lemma ExtendsSame(s: Core)
    ensures Extends(s, s)
  {
  }

  lemma StoredKeeps(n: Authority, hash: Hash, w: World, s: Core, c: Certified)
    requires Inv(n, hash, w, s) && Acknowledged(n.committee, hash, w, c)
    ensures Kept(n, hash, w, s.(waitingCertificates := s.waitingCertificates + {c}))
    ensures Deliverable(n.committee, s.store, c) ==> Kept(n, hash, w, Accept(n, s, c))
  {
    var t := s.(waitingCertificates := s.waitingCertificates + {c});
    assert Extends(s, t);
    SuspendCertificateKeeps(n, hash, w, s, c);
    if Deliverable(n.committee, s.store, c) {
      AcceptExtends(n, s, c);
      AcceptKeeps(n, hash, w, s, c);
      assert Accept(n, s, c).votes == s.votes;
      hide Base, OwnSound, Extends, Accept, Kept;
      KeptSame(n, hash, w, s, Accept(n, s, c));
    }
    hide Base, OwnSound, Extends, Accept, Kept;
    KeptSame(n, hash, w, s, t);
  }

  /** A vote for the current header is counted; a quorum of them makes a backed certificate that is stored or waits. */
  lemma VoteCounts(n: Authority, hash: Hash, w: World, s: Core, v: Vote)
    requires Base(n, hash, w, s) && 0 < n.committee.Stake(v.author) && VoteBacked(w, v.author, s.current)
    requires forall vs :: QuorumOfVotes(n.committee, vs) && (forall k :: k in vs ==> VoteBacked(w, k, s.current)) ==>
               SoundHeader(n.committee, hash, w, s.current) && s.current.id in At(s.processing, s.current.round)
    ensures var (t, r) := ProcessVote(n, s, v);
            && !r.Panic? && Base(n, hash, w, t) && Extends(s, t) && s.votes.used <= t.votes.used
            && (v.author !in s.votes.used ==> r.Ok? && v.author in t.votes.used)
  {
    var (votes, o) := AppendVote(n.committee, s.votes, v.author);
    var s1 := s.(votes := votes);
    assert n.committee.Valid();
    AppendVoteSound(n.committee, w, s.votes, s.current, v.author);
    VoteOrdered(n, s, v);
    assert Base(n, hash, w, s1) by {
      hide WorldSound, Recorded, WaitingSound, VotedSound, SentSound, SuspendedSound, VotesSound, Remembers, Ordered;
    }
    if o.Quorum? {
      var c := Certified(s.current, o.votes);
      var s2 := s1.(log := s.log.(assembled := s.log.assembled + [c]));
      assert Acknowledged(n.committee, hash, w, c);
      assert Base(n, hash, w, s2) by {
        hide WorldSound, Recorded, WaitingSound, VotedSound, SentSound, SuspendedSound, VotesSound, Remembers, Ordered;
      }
      hide Base, SoundHeader, Extends, Acknowledged, At;
      SuspendCertificateKeeps(n, hash, w, s2, c);
      if Deliverable(n.committee, s2.store, c) {
        AcceptKeeps(n, hash, w, s2, c);
      }
    }
  }

  /** A vote for the current header, before the certificate it may complete is handled. */
  lemma VoteAppended(n: Authority, hash: Hash, w: World, s: Core, v: Vote)
    requires Inv(n, hash, w, s) && 0 < n.committee.Stake(v.author) && VoteBacked(w, v.author, s.current)
    ensures var (votes, o) := AppendVote(n.committee, s.votes, v.author);
            && Inv(n, hash, w, s.(votes := votes))
            && (o.Quorum? ==> s.log.proposed != [] && Backed(n.committee, hash, w, Certified(s.current, o.votes)))
  {
    var (votes, o) := AppendVote(n.committee, s.votes, v.author);
    assert n.committee.Valid();
    AppendVoteSound(n.committee, w, s.votes, s.current, v.author);
    if o.Quorum? {
      var k := HonestVoter(n.committee, hash, w, o.votes);
      assert s.current in w.votes[k] && 0 < s.current.round;
    }
    hide WorldSound, Recorded, WaitingSound, VotedSound, SentSound, SuspendedSound, VotesSound, Remembers, Ordered, SoundHeader,
      QuorumOfVotes;
  }

  lemma AssembledKept(n: Authority, hash: Hash, w: World, s: Core, c: Certified)
    requires Inv(n, hash, w, s)
    ensures Inv(n, hash, w, s.(log := s.log.(assembled := s.log.assembled + [c])))
  {
    var t := s.(log := s.log.(assembled := s.log.assembled + [c]));
    assert Ordered(n.committee, t) by {
      hide Fed, ParentsFirst, StoreIsSent;
    }
    hide WorldSound, Recorded, WaitingSound, VotedSound, SentSound, SuspendedSound, VotesSound, Remembers, Ordered, SoundHeader,
      Fed, ParentsFirst, StoreIsSent;
  }

  /** The current header was voted for by its author, so it passes every check again. */
  lemma CurrentAcceptable(n: Authority, hash: Hash, w: World, s: Core)
    requires Inv(n, hash, w, s) && s.log.proposed != []
    ensures s.current.author == n.name && s.current in s.log.voted && Acceptable(n, s, s.current)
  {
    hide Grounded, ParentsAmong, VerifyHeader, NoRepeats;
    assert Recorded(n, w, s.log.voted, s.log.proposed);
    assert s.current in s.log.proposed;
    assert s.current in Members(s.log.proposed);
  }

  /** A vote that does not make the core vote again for its own header. */
  lemma VoteKeeps(n: Authority, hash: Hash, w: World, s: Core, v: Vote)
    requires Inv(n, hash, w, s) && 0 < n.committee.Stake(v.author) && VoteBacked(w, v.author, s.current)
    requires AppendVote(n.committee, s.votes, v.author).1.Quorum? && s.current.id !in At(s.processing, s.current.round) ==>
               !RevotesFor(n, s, s.current)
    ensures var (t, r) := ProcessVote(n, s, v);
            !r.Panic? && Kept(n, hash, w, t)
  {
    hide Inv, Base, OwnSound, Extends, Kept, At, ProcessCertificate, Backed, Ordered, ParentsAmong, Grounded;
    var (votes, o) := AppendVote(n.committee, s.votes, v.author);
    var s1 := s.(votes := votes);
    VoteAppended(n, hash, w, s, v);
    if o.Quorum? {
      var c := Certified(s.current, o.votes);
      var s2 := s1.(log := s1.log.(assembled := s1.log.assembled + [c]));
      AssembledKept(n, hash, w, s1, c);
      CurrentAcceptable(n, hash, w, s2);
      CertificateKeeps(n, hash, w, s2, c);
    } else {
      UnchangedKept(n, hash, w, s1);
      UnchangedKept(n, hash, w, s);
    }
  }

  // ----- A header of one's own -----

  function Proposing(s: Core, h: Header): Core {
    s.(current := h, votes := NO_VOTES, log := s.log.(proposed := s.log.proposed + [h]))
  }

  lemma GrowProposal(n: Authority, hash: Hash, w: World, s: Core, h: Header)
    requires WorldSound(n.committee, hash, w) && Recorded(n, w, s.log.voted, s.log.proposed)
    requires h.author == n.name && VerifyHeader(n.committee, hash, h).Ok? && NoRepeats(h.parents)
    ensures var t := Proposing(s, h); var w' := Grow(w, n.name, t);
            && WorldSound(n.committee, hash, w') && Recorded(n, w', t.log.voted, t.log.proposed)
            && Wider(w, w') && SoundHeader(n.committee, hash, w', h)
  {
    hide VerifyHeader, Injective, Committee.Weight, NoRepeats;
    var w' := Grow(w, n.name, Proposing(s, h));
    assert Members(s.log.proposed + [h]) == Members(s.log.proposed) + {h};
    assert w'.votes.Keys == w.votes.Keys && w'.proposals.Keys == w.proposals.Keys;
  }

  lemma NoVotesSound(cm: Committee, w: World, h: Header)
    requires cm.Valid()
    ensures VotesSound(cm, w, NO_VOTES, h)
  {
    var nobody: set<Key> := {};
    cm.WeightEmpty(nobody);
    assert NO_VOTES.used - nobody == nobody;
    assert Counting(cm, NO_VOTES, nobody);
  }

  lemma ProposingKeeps(n: Authority, hash: Hash, w: World, s: Core, h: Header)
    requires Base(n, hash, w, s)
    requires h.author == n.name && VerifyHeader(n.committee, hash, h).Ok? && NoRepeats(h.parents)
    ensures var t := Proposing(s, h); var w' := Grow(w, n.name, t);
            Base(n, hash, w', t) && Wider(w, w') && SoundHeader(n.committee, hash, w', h)
  {
    var w' := Grow(w, n.name, Proposing(s, h));
    GrowProposal(n, hash, w, s, h);
    assert n.committee.Valid();
    NoVotesSound(n.committee, w', h);
    PiecesWiden(n.committee, hash, w, w');
    assert Ordered(n.committee, Proposing(s, h));
    hide Wider, WorldSound, Recorded, WaitingSound, VotedSound, SentSound, SuspendedSound, VotesSound, SoundHeader,
      Remembers, Grow, Ordered, NoRepeats, VerifyHeader;
  }

  lemma BaseRecorded(n: Authority, hash: Hash, w: World, t: Core)
    requires Base(n, hash, w, t)
    ensures n.name in w.votes && n.name in w.proposals
    ensures w.votes[n.name] == Members(t.log.voted) && w.proposals[n.name] == Members(t.log.proposed)
  {
  }

  /** An own header passes all checks and gets the own vote at once. */
  lemma OwnHeaderVoted(n: Authority, s: Core, h: Header)
    requires Ordered(n.committee, s) && h.author == n.name && n.name !in At(s.lastVoted, h.round)
    requires Grounded(n.committee, h) && ParentsAmong(n.committee, h.parents, s.store.certificates.Keys)
    ensures var (t, r) := ProcessVote(n, RecordVote(StoreHeader(Begin(s, h), h), h), VoteFor(h, n.name));
            ProcessHeader(n, s, h) == (t, if r.Ok? then Ok else Panic)
  {
    hide GetParents, CheckParents, ParentsFirst, StakeOf, Committee.QuorumThreshold, ProcessVote;
    ParentsFound(n.committee, s.store, h.parents);
    ParentsPass(n.committee, h, GetParents(n.committee, s.store, h.parents).value, h.parents, 0);
  }

  lemma OwnHeaderFresh(n: Authority, hash: Hash, w: World, s: Core, h: Header)
    requires Inv(n, hash, w, s) && h.author == n.name && s.current.round < h.round
    ensures n.name !in At(s.lastVoted, h.round)
    ensures forall g :: g in s.log.voted ==> !InSlot(g, n.name, h.round)
  {
    hide VerifyHeader, NoRepeats, Grounded, ParentsAmong;
    assert Recorded(n, w, s.log.voted, s.log.proposed);
    forall g | g in s.log.voted && g.author == n.name
      ensures g.round <= s.current.round
    {
      assert SoundHeader(n.committee, hash, w, g);
      assert g in Members(s.log.proposed);
    }
  }

  /** The state in which an own header is stored and voted for, with the vote still to be counted. */
  function Voted(s: Core, h: Header): Core {
    RecordVote(StoreHeader(Begin(Proposing(s, h), h), h), h)
  }

  lemma VotedFields(s: Core, h: Header)
    ensures var t := Voted(s, h);
            && t.current == h && t.log.proposed == s.log.proposed + [h] && t.gcRound == s.gcRound
            && t.log.voted == s.log.voted + [h] && t.votes == NO_VOTES
            && h.id in At(t.processing, h.round) && h.author in At(t.lastVoted, h.round)
            && forall r :: At(s.lastVoted, r) <= At(t.lastVoted, r)
  {
  }

  lemma OwnHeaderRecorded(n: Authority, hash: Hash, w: World, s: Core, h: Header)
    requires Base(n, hash, w, s) && forall g :: g in s.log.voted ==> !InSlot(g, n.name, h.round)
    requires h.author == n.name && VerifyHeader(n.committee, hash, h).Ok? && NoRepeats(h.parents)
    requires Grounded(n.committee, h) && ParentsAmong(n.committee, h.parents, s.store.certificates.Keys)
    ensures var t := Voted(s, h); var w' := Grow(w, n.name, t);
            Base(n, hash, w', t) && Wider(w, w') && SoundHeader(n.committee, hash, w', h) && VoteBacked(w', n.name, h)
  {
    hide Base, SoundHeader, Grounded, ParentsAmong, VerifyHeader, NoRepeats, At, Inv, Add, InSlot;
    var s0 := Proposing(s, h);
    var w0 := Grow(w, n.name, s0);
    var s1 := Begin(s0, h);
    var s2 := StoreHeader(s1, h);
    var t := Voted(s, h);
    ProposingKeeps(n, hash, w, s, h);
    BeginKeeps(n, hash, w0, s0, h);
    BeginKeeps(n, hash, w0, s1, h);
    RecordVoteKeeps(n, hash, w0, s2, h);
    assert Grow(w0, n.name, t) == Grow(w, n.name, t);
    assert h in t.log.voted;
  }

  lemma OwnHeaderKeeps(n: Authority, hash: Hash, w: World, s: Core, h: Header)
    requires Inv(n, hash, w, s) && Admissible(n, hash, w, s, OwnHeader(h))
    ensures var (t, r) := ProcessOwnHeader(n, s, h);
            r.Ok? && Kept(n, hash, w, t)
  {
    hide Base, OwnSound, SoundHeader, Grounded, ParentsAmong, VerifyHeader, NoRepeats, At, ProcessVote,
      ProcessHeader, Kept, Wider, Recorded, Voted, Grow, Ordered, Proposing;
    var s3 := Voted(s, h);
    var w3 := Grow(w, n.name, s3);
    OwnHeaderFresh(n, hash, w, s, h);
    OwnHeaderRecorded(n, hash, w, s, h);
    OwnHeaderCounted(n, hash, w, s, h);
    VotedFields(s, h);
    HeaderStake(n.committee, hash, h);
    VoteCounts(n, hash, w3, s3, VoteFor(h, n.name));
    var t := ProcessVote(n, s3, VoteFor(h, n.name)).0;
    SameGrowth(n, hash, w, s3, t);
    OwnHeaderDone(n, hash, w, s, h, t);
  }

  lemma OwnHeaderCounted(n: Authority, hash: Hash, w: World, s: Core, h: Header)
    requires Base(n, hash, w, s) && h.author == n.name && n.name !in At(s.lastVoted, h.round)
    requires Grounded(n.committee, h) && ParentsAmong(n.committee, h.parents, s.store.certificates.Keys)
    ensures var (t, r) := ProcessVote(n, Voted(s, h), VoteFor(h, n.name));
            ProcessOwnHeader(n, s, h) == (t, if r.Ok? then Ok else Panic)
  {
    hide WorldSound, Grounded, ParentsAmong, At, Recorded, ProcessVote, ProcessHeader, WaitingSound, VotedSound, SentSound,
      SuspendedSound, Remembers, VotesSound, StoreIsSent, ParentsFirst;
    assert Ordered(n.committee, Proposing(s, h));
    OwnHeaderVoted(n, Proposing(s, h), h);
  }

  lemma HeaderStake(cm: Committee, hash: Hash, h: Header)
    requires VerifyHeader(cm, hash, h).Ok?
    ensures 0 < cm.Stake(h.author)
  {
  }

  lemma SameGrowth(n: Authority, hash: Hash, w: World, s: Core, t: Core)
    requires Base(n, hash, Grow(w, n.name, s), t)
    ensures Grow(w, n.name, t) == Grow(w, n.name, s)
  {
    BaseRecorded(n, hash, Grow(w, n.name, s), t);
  }

  lemma OwnHeaderDone(n: Authority, hash: Hash, w: World, s: Core, h: Header, t: Core)
    requires OwnSound(n, hash, w, s) && s.current.round < h.round
    requires var w' := Grow(w, n.name, t); Base(n, hash, w', t) && Wider(w, w') && SoundHeader(n.committee, hash, w', h)
    requires t.current == h && t.log.proposed == s.log.proposed + [h] && t.gcRound == s.gcRound
    requires n.name in t.votes.used && s.log.voted + [h] <= t.log.voted
    ensures Kept(n, hash, w, t)
  {
    hide Base, SoundHeader, Wider, Grow;
    assert forall g :: g in s.log.voted + [h] ==> g in t.log.voted;
  }

  // ----- The main loop -----

  lemma UnchangedKept(n: Authority, hash: Hash, w: World, s: Core)
    requires Inv(n, hash, w, s)
    ensures Kept(n, hash, w, s)
  {
    ExtendsSame(s);
    KeptSame(n, hash, w, s, s);
  }

  lemma CertificateInKeeps(n: Authority, hash: Hash, w: World, s: Core, c: Certified)
    requires Inv(n, hash, w, s) && Admissible(n, hash, w, s, CertificateIn(c))
    requires SanitizeCertificate(n, hash, s, c).Ok?
    ensures Acknowledged(n.committee, hash, w, c)
  {
    hide OwnSound, CheckVotes, Committee.Weight, NoRepeats;
    if !IsGenesis(n.committee, c) {
      VerifyExact(n.committee, hash, c);
      HeaderAuthentic(n.committee, hash, w, c.header);
      forall k | k in c.votes
        ensures VoteBacked(w, k, c.header)
      {
        VoteAuthentic(n.committee, hash, w, VoteFor(c.header, k), c.header);
      }
    }
  }

  lemma VoteInKeeps(n: Authority, hash: Hash, w: World, s: Core, v: Vote)
    requires Inv(n, hash, w, s) && Admissible(n, hash, w, s, VoteIn(v))
    requires SanitizeVote(n, s, v).Ok?
    ensures 0 < n.committee.Stake(v.author) && VoteBacked(w, v.author, s.current)
  {
    assert v == VoteFor(s.current, v.author);
    VoteAuthentic(n.committee, hash, w, v, s.current);
  }

  lemma BatchKeeps(n: Authority, hash: Hash, w: World, s: Core, b: Batch)
    requires Inv(n, hash, w, s)
    ensures Kept(n, hash, w, s.(store := s.store.(batches := s.store.batches + {b})))
  {
    var t := s.(store := s.store.(batches := s.store.batches + {b}));
    ExtendsSame(s);
    assert Base(n, hash, w, t) by {
      hide WorldSound, Recorded, WaitingSound, VotedSound, SentSound, SuspendedSound, VotesSound, Remembers;
    }
    hide Base, OwnSound;
    KeptSame(n, hash, w, s, t);
  }

  lemma HandleKeeps(n: Authority, hash: Hash, w: World, s: Core, e: Event)
    requires Inv(n, hash, w, s) && Admissible(n, hash, w, s, e) && !RevotesOwn(n, hash, s, e)
    ensures var (t, r) := Handle(n, hash, s, e);
            !r.Panic? && Kept(n, hash, w, t)
  {
    hide Base, OwnSound, SoundHeader, Acknowledged, Kept, ProcessHeader, ProcessVote, ProcessCertificate, ProcessOwnHeader,
      CheckVotes, Grounded, ParentsAmong, VerifyHeader, WorldSound, Inv, RevotesFor, At, IsGenesis;
    UnchangedKept(n, hash, w, s);
    SanitizeNeverPanics(n, hash, s, e);
    WorldOf(n, hash, w, s);
    match e
    case HeaderIn(h) =>
      if SanitizeHeader(n, hash, s, h).Ok? {
        HeaderAuthentic(n.committee, hash, w, h);
        HeaderKeeps(n, hash, w, s, h);
      }
    case VoteIn(v) =>
      if SanitizeVote(n, s, v).Ok? {
        VoteInKeeps(n, hash, w, s, v);
        VoteKeeps(n, hash, w, s, v);
      }
    case CertificateIn(c) =>
      if SanitizeCertificate(n, hash, s, c).Ok? {
        CertificateInKeeps(n, hash, w, s, c);
        CertificateKeeps(n, hash, w, s, c);
      }
    case HeaderLoopback(h) =>
      HeaderKeeps(n, hash, w, s, h);
    case CertificateLoopback(c) =>
      CertificateKeeps(n, hash, w, s, c);
    case OwnHeader(h) =>
      OwnHeaderKeeps(n, hash, w, s, h);
    case BatchStored(b) =>
      BatchKeeps(n, hash, w, s, b);
  }

  lemma WorldOf(n: Authority, hash: Hash, w: World, s: Core)
    requires Inv(n, hash, w, s)
    ensures WorldSound(n.committee, hash, w)
    ensures forall h :: h in s.waitingHeaders ==> SoundHeader(n.committee, hash, w, h) || h.round == 0
    ensures forall c :: c in s.waitingCertificates ==> Acknowledged(n.committee, hash, w, c)
  {
    hide SoundHeader, Acknowledged, WorldSound;
  }

  lemma {:induction false} CheckVotesNeverPanics(cm: Committee, votes: seq<Key>, used: set<Key>, weight: nat)
    ensures !CheckVotes(cm, votes, used, weight).Panic?
    decreases |votes|
  {
    if votes != [] && votes[0] !in used {
      CheckVotesNeverPanics(cm, votes[1..], used + {votes[0]}, weight + cm.Stake(votes[0]));
    }
  }

  lemma SanitizeNeverPanics(n: Authority, hash: Hash, s: Core, e: Event)
    ensures e.HeaderIn? ==> !SanitizeHeader(n, hash, s, e.header).Panic?
    ensures e.VoteIn? ==> !SanitizeVote(n, s, e.vote).Panic?
    ensures e.CertificateIn? ==> !SanitizeCertificate(n, hash, s, e.certificate).Panic?
  {
    if e.CertificateIn? {
      CheckVotesNeverPanics(n.committee, e.certificate.votes, {}, 0);
    }
  }

  lemma FromKeepsRows<T>(m: map<Round, set<T>>, first: Round)
    ensures forall r :: first <= r ==> At(From(m, first), r) == At(m, r)
    ensures forall r :: At(From(m, first), r) <= At(m, r)
  {
  }

  lemma CleanupRemembers(gcRound: Round, first: Round, lastVoted: map<Round, set<Key>>, voted: seq<Header>)
    requires Remembers(gcRound, lastVoted, voted) && gcRound <= first
    ensures Remembers(first, From(lastVoted, first), voted)
  {
    FromKeepsRows(lastVoted, first);
    hide VotesOnce, At, From;
  }

  lemma CleanupFed(cm: Committee, s: Core, first: Round)
    requires Fed(cm, s.parents, s.log.parents, s.log.sent)
    ensures Fed(cm, From(s.parents, first), s.log.parents, s.log.sent)
  {
    hide Collecting, OfRound, QuorumFirst, Committee.Valid;
  }

  /** The clean-up moves `gcRound` up and forgets exactly the rounds below it. */
  lemma CleanupForgets(n: Authority, s: Core, round: Round)
    ensures var t := Cleanup(n, s, round);
            if round <= n.gcDepth then t == s
            else
              && t.gcRound == round - n.gcDepth
              && (forall r :: r in t.lastVoted <==> r in s.lastVoted && t.gcRound <= r)
              && (forall r :: r in t.processing <==> r in s.processing && t.gcRound <= r)
              && (forall r :: r in t.parents <==> r in s.parents && t.gcRound <= r)
              && (forall r :: r in t.lastVoted ==> t.lastVoted[r] == s.lastVoted[r])
              && (forall r :: r in t.processing ==> t.processing[r] == s.processing[r])
              && (forall r :: r in t.parents ==> t.parents[r] == s.parents[r])
              && t == s.(gcRound := t.gcRound, lastVoted := t.lastVoted, processing := t.processing, parents := t.parents)
  {
  }

  lemma CleanupKeeps(n: Authority, hash: Hash, w: World, s: Core, round: Round)
    requires Inv(n, hash, w, s) && (n.gcDepth < round ==> s.gcRound + n.gcDepth <= round)
    ensures Inv(n, hash, w, Cleanup(n, s, round))
  {
    hide WorldSound, Recorded, WaitingSound, VotedSound, SentSound, SuspendedSound, VotesSound, SoundHeader, At, Remembers,
      Fed, StoreIsSent, ParentsFirst, From;
    if n.gcDepth < round {
      var first := round - n.gcDepth;
      CleanupRemembers(s.gcRound, first, s.lastVoted, s.log.voted);
      CleanupFed(n.committee, s, first);
    }
  }

  lemma KeptCleanup(n: Authority, hash: Hash, w: World, s: Core, round: Round)
    requires Kept(n, hash, w, s) && (n.gcDepth < round ==> s.gcRound + n.gcDepth <= round)
    ensures Kept(n, hash, w, Cleanup(n, s, round)) && Grow(w, n.name, Cleanup(n, s, round)) == Grow(w, n.name, s)
  {
    hide Inv, Wider;
    CleanupKeeps(n, hash, Grow(w, n.name, s), s, round);
  }

  lemma {:induction false} HandleKeepsHorizon(n: Authority, hash: Hash, s: Core, e: Event)
    requires Ordered(n.committee, s)
    ensures Handle(n, hash, s, e).0.gcRound == s.gcRound
  {
    hide Ordered, ProcessHeader, ProcessVote, ProcessCertificate;
    match e
    case HeaderIn(h) => HeaderOrdered(n, s, h);
    case VoteIn(v) => VoteOrdered(n, s, v);
    case CertificateIn(c) => CertificateOrdered(n, s, c);
    case HeaderLoopback(h) => HeaderOrdered(n, s, h);
    case CertificateLoopback(c) => CertificateOrdered(n, s, c);
    case OwnHeader(h) =>
      StillOrdered(n, s, h);
      HeaderOrdered(n, Proposing(s, h), h);
    case BatchStored(_) =>
  }

  lemma StillOrdered(n: Authority, s: Core, h: Header)
    requires Ordered(n.committee, s)
    ensures Ordered(n.committee, Proposing(s, h))
  {
  }

  /** One turn of the main loop keeps the invariant, with the world grown by what this core signed, and does not panic. */
  lemma StepKeeps(n: Authority, hash: Hash, w: World, s: Core, t: Turn)
    requires Inv(n, hash, w, s) && Admissible(n, hash, w, s, t.event) && Timely(n, s, t)
    requires !RevotesOwn(n, hash, s, t.event)
    ensures var (s', r) := Step(n, hash, s, t);
            !r.Panic? && Kept(n, hash, w, s')
  {
    hide Base, OwnSound, Admissible, Kept, Ordered, Cleanup, Handle, RevotesOwn;
    HandleKeeps(n, hash, w, s, t.event);
    assert Ordered(n.committee, s) by {
      InvOrdered(n, hash, w, s);
    }
    HandleKeepsHorizon(n, hash, s, t.event);
    KeptCleanup(n, hash, w, Handle(n, hash, s, t.event).0, t.consensusRound);
  }

  lemma InvOrdered(n: Authority, hash: Hash, w: World, s: Core)
    requires Inv(n, hash, w, s)
    ensures Ordered(n.committee, s)
  {
  }

  lemma InvInitial(n: Authority, hash: Hash, w: World)
    requires WorldSound(n.committee, hash, w) && n.name in w.votes && w.votes[n.name] == {} && w.proposals[n.name] == {}
    ensures Inv(n, hash, w, InitialCore())
  {
    var nobody: set<Key> := {};
    NoVotesSound(n.committee, w, NO_HEADER);
    hide WorldSound;
  }
}
