/**
 * One core among others that may send it anything except what an honest authority did not sign.
 * `World` is what the honest authorities have signed so far: their votes and their own headers.
 */
module Protocol {
  import opened Collections
  import opened Committees
  import opened Dags
  import opened Messages
  import opened Aggregators
  import opened Handlers
  import opened Delivery

  datatype World = World(votes: map<Key, set<Header>>, proposals: map<Key, set<Header>>)

  ghost predicate VoteBacked(w: World, k: Key, h: Header) {
    k in w.votes ==> h in w.votes[k]
  }

  /** A header that verifies, proposed by its author if that author is honest. */
  ghost predicate SoundHeader(cm: Committee, hash: Hash, w: World, h: Header) {
    && VerifyHeader(cm, hash, h).Ok?
    && NoRepeats(h.parents)
    && (h.author in w.proposals ==> h in w.proposals[h.author])
  }

  /** A certificate that verifies, whose honest voters did vote for its header. */
  ghost predicate Backed(cm: Committee, hash: Hash, w: World, c: Certified) {
    && SoundHeader(cm, hash, w, c.header)
    && QuorumOfVotes(cm, c.votes)
    && forall k :: k in c.votes ==> VoteBacked(w, k, c.header)
  }

  ghost function Byzantine(cm: Committee, w: World): set<Key> {
    (set k | k in cm.keys) - w.votes.Keys
  }

  /** Less than a third of the stake is Byzantine; honest authorities only sign well-formed headers. */
  ghost predicate WorldSound(cm: Committee, hash: Hash, w: World) {
    && cm.Valid() && Injective(hash)
    && w.votes.Keys == w.proposals.Keys
    && 3 * cm.Weight(Byzantine(cm, w)) < cm.Total()
    && (forall k, h :: k in w.votes && h in w.votes[k] ==> VerifyHeader(cm, hash, h).Ok? && 0 < h.round)
    && (forall k, h :: k in w.proposals && h in w.proposals[k] ==> VerifyHeader(cm, hash, h).Ok? && h.author == k)
  }

  ghost predicate Wider(w: World, w': World) {
    && w.votes.Keys == w'.votes.Keys && w.proposals.Keys == w'.proposals.Keys
    && (forall k :: k in w.votes ==> w.votes[k] <= w'.votes[k])
    && (forall k :: k in w.proposals ==> w.proposals[k] <= w'.proposals[k])
  }

  ghost function Grow(w: World, k: Key, s: Core): World {
    World(w.votes[k := Members(s.log.voted)], w.proposals[k := Members(s.log.proposed)])
  }

  // ----- What a core keeps -----

  /** A header of round 0 comes with a certificate that compares equal to genesis; no one votes for it. */
  ghost predicate WaitingSound(cm: Committee, hash: Hash, w: World, waiting: set<Header>) {
    forall h :: h in waiting ==> SoundHeader(cm, hash, w, h) || h.round == 0
  }

  ghost predicate VotedSound(cm: Committee, hash: Hash, w: World, voted: seq<Header>, known: set<Digest>) {
    forall h :: h in voted ==>
      SoundHeader(cm, hash, w, h) && Grounded(cm, h) && ParentsAmong(cm, h.parents, known)
  }

  /** Backed, or accepted without a check because it compares equal to genesis. */
  ghost predicate Acknowledged(cm: Committee, hash: Hash, w: World, c: Certified) {
    Backed(cm, hash, w, c) || IsGenesis(cm, c)
  }

  ghost predicate SentSound(cm: Committee, hash: Hash, w: World, sent: seq<Certified>) {
    forall c :: c in sent ==> Acknowledged(cm, hash, w, c)
  }

  ghost predicate SuspendedSound(cm: Committee, hash: Hash, w: World, waiting: set<Certified>) {
    forall c :: c in waiting ==> Acknowledged(cm, hash, w, c)
  }

  ghost predicate InSlot(h: Header, k: Key, r: Round) {
    h.author == k && h.round == r
  }

  ghost predicate VotesOnce(voted: seq<Header>) {
    forall i, j :: 0 <= i < j < |voted| ==> !InSlot(voted[i], voted[j].author, voted[j].round)
  }

  /** From `gcRound` on the core remembers exactly whom it voted for. */
  ghost predicate Remembers(gcRound: Round, lastVoted: map<Round, set<Key>>, voted: seq<Header>) {
    && (forall h :: h in voted && gcRound <= h.round ==> h.author in At(lastVoted, h.round))
    && (forall r, k :: k in At(lastVoted, r) ==> exists h :: h in voted && InSlot(h, k, r))
  }

  /** The votes collected for a header: distinct, with stake, and cast if honest. */
  ghost predicate VotesSound(cm: Committee, w: World, votes: Votes, h: Header) {
    && (exists certified :: Counting(cm, votes, certified))
    && forall k :: k in votes.votes ==> 0 < cm.Stake(k) && VoteBacked(w, k, h)
  }

  ghost predicate Recorded(n: Authority, w: World, voted: seq<Header>, proposed: seq<Header>) {
    && n.name in w.votes && n.name in w.proposals
    && w.votes[n.name] == Members(voted) && w.proposals[n.name] == Members(proposed)
  }

  ghost predicate Base(n: Authority, hash: Hash, w: World, s: Core) {
    && WorldSound(n.committee, hash, w)
    && Recorded(n, w, s.log.voted, s.log.proposed)
    && Ordered(n.committee, s)
    && WaitingSound(n.committee, hash, w, s.waitingHeaders)
    && VotedSound(n.committee, hash, w, s.log.voted, s.store.certificates.Keys)
    && SentSound(n.committee, hash, w, s.log.sent)
    && SuspendedSound(n.committee, hash, w, s.waitingCertificates)
    && Remembers(s.gcRound, s.lastVoted, s.log.voted)
    && VotesSound(n.committee, w, s.votes, s.current)
  }

  /** Own headers got the own vote; the last of them is the current header. */
  ghost predicate OwnSound(n: Authority, hash: Hash, w: World, s: Core) {
    && (forall h :: h in s.log.proposed ==> h.round <= s.current.round && h in s.log.voted)
    && if s.log.proposed == [] then s.current == NO_HEADER else
         && s.current == s.log.proposed[|s.log.proposed| - 1]
         && SoundHeader(n.committee, hash, w, s.current) && n.name in s.votes.used
  }

  ghost predicate Inv(n: Authority, hash: Hash, w: World, s: Core) {
    Base(n, hash, w, s) && OwnSound(n, hash, w, s)
  }

  // ----- What may arrive -----

  /** A header an honest authority signed is one it proposed: the signature covers the identifier. */
  ghost predicate AuthenticHeader(w: World, h: Header) {
    && NoRepeats(h.parents)
    && (h.author in w.proposals ==> exists g :: g in w.proposals[h.author] && g.id == h.id)
  }

  /** A vote an honest authority signed is one it cast: the signature covers the identifier, the round and the origin. */
  ghost predicate AuthenticVote(w: World, v: Vote) {
    v.author in w.votes ==> exists g :: g in w.votes[v.author] && VoteFor(g, v.author) == v
  }

  /**
   * What may reach a core. Messages are authentic, unless they compare equal to genesis and are not checked at all;
   * waiters hand back what they were given, at any time; own headers come in ascending rounds over known parents.
   */
  ghost predicate Admissible(n: Authority, hash: Hash, w: World, s: Core, e: Event) {
    match e
    case HeaderIn(h) => AuthenticHeader(w, h)
    case VoteIn(v) => AuthenticVote(w, v)
    case CertificateIn(c) =>
      || IsGenesis(n.committee, c)
      || (AuthenticHeader(w, c.header) && forall k :: k in c.votes ==> AuthenticVote(w, VoteFor(c.header, k)))
    case HeaderLoopback(h) => h in s.waitingHeaders
    case CertificateLoopback(c) => c in s.waitingCertificates
    case OwnHeader(h) =>
      && h.author == n.name && VerifyHeader(n.committee, hash, h).Ok? && NoRepeats(h.parents)
      && s.current.round < h.round
      && Grounded(n.committee, h) && ParentsAmong(n.committee, h.parents, s.store.certificates.Keys)
    case BatchStored(_) => true
  }

  // ----- Second votes -----

  /** Processing `h` casts a vote for a slot that got one before and was forgotten. */
  ghost predicate Revotes(n: Authority, s: Core, h: Header) {
    && Acceptable(n, s, h) && h.author !in At(s.lastVoted, h.round)
    && exists g :: g in s.log.voted && InSlot(g, h.author, h.round)
  }

  /** The header that handling an event goes through first, if any. */
  function Processed(n: Authority, hash: Hash, s: Core, e: Event): Option<Header> {
    match e
    case HeaderIn(h) => if SanitizeHeader(n, hash, s, h).Ok? then Some(h) else None
    case VoteIn(v) =>
      if SanitizeVote(n, s, v).Ok? && AppendVote(n.committee, s.votes, v.author).1.Quorum?
         && s.current.id !in At(s.processing, s.current.round)
      then Some(s.current) else None
    case CertificateIn(c) =>
      if SanitizeCertificate(n, hash, s, c).Ok? && c.header.id !in At(s.processing, c.header.round)
      then Some(c.header) else None
    case HeaderLoopback(h) => Some(h)
    case CertificateLoopback(c) => if c.header.id !in At(s.processing, c.header.round) then Some(c.header) else None
    case OwnHeader(h) => Some(h)
    case BatchStored(_) => None
  }

  ghost predicate RevotesOn(n: Authority, hash: Hash, s: Core, e: Event) {
    match Processed(n, hash, s, e)
    case None => false
    case Some(h) => Revotes(n, s, h)
  }

  /** The second vote is for an own header: the core counts it for its current header, where its name is used up. */
  ghost predicate RevotesFor(n: Authority, s: Core, h: Header) {
    Revotes(n, s, h) && h.author == n.name
  }

  ghost predicate RevotesOwn(n: Authority, hash: Hash, s: Core, e: Event) {
    match Processed(n, hash, s, e)
    case None => false
    case Some(h) => RevotesFor(n, s, h)
  }

  ghost predicate Timely(n: Authority, s: Core, t: Turn) {
    n.gcDepth < t.consensusRound ==> s.gcRound + n.gcDepth <= t.consensusRound
  }

  // ----- Signatures -----

  lemma SameId(cm: Committee, hash: Hash, g: Header, h: Header)
    requires Injective(hash) && VerifyHeader(cm, hash, g).Ok? && VerifyHeader(cm, hash, h).Ok? && g.id == h.id
    ensures g == h
  {
    assert hash(g.author, g.round, g.payload, g.parents) == hash(h.author, h.round, h.payload, h.parents);
  }

  lemma HeaderAuthentic(cm: Committee, hash: Hash, w: World, h: Header)
    requires WorldSound(cm, hash, w) && AuthenticHeader(w, h) && VerifyHeader(cm, hash, h).Ok?
    ensures SoundHeader(cm, hash, w, h)
  {
    hide VerifyHeader, NoRepeats, Injective;
    if h.author in w.proposals {
      var g :| g in w.proposals[h.author] && g.id == h.id;
      SameId(cm, hash, g, h);
    }
  }

  lemma VoteAuthentic(cm: Committee, hash: Hash, w: World, v: Vote, h: Header)
    requires WorldSound(cm, hash, w) && AuthenticVote(w, v) && v == VoteFor(h, v.author)
    requires VerifyHeader(cm, hash, h).Ok? || h.round == 0
    ensures VoteBacked(w, v.author, h)
  {
    hide VerifyHeader, Injective;
    if v.author in w.votes {
      var g :| g in w.votes[v.author] && VoteFor(g, v.author) == v;
      assert 0 < g.round && g.round == h.round;
      SameId(cm, hash, g, h);
    }
  }

  lemma HonestVoter(cm: Committee, hash: Hash, w: World, votes: seq<Key>) returns (k: Key)
    requires WorldSound(cm, hash, w) && QuorumOfVotes(cm, votes)
    ensures k in votes && k in w.votes
  {
    hide VerifyHeader, Injective, Committee.Weight;
    k := cm.QuorumsShareHonest(Voters(votes), Voters(votes), Byzantine(cm, w));
  }
}
