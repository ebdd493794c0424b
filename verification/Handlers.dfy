/** The certificate layer of one authority as functions on values: what one message does to the state of its core. */
module Handlers {
  import opened Committees
  import opened Dags
  import opened Messages
  import opened Aggregators

  datatype Authority = Authority(committee: Committee, name: Key, gcDepth: Round)

  /** The persistent store: certificates under their digests, headers under their identifiers, known batches. */
  datatype Store = Store(certificates: map<Digest, Certified>, headers: map<nat, Header>, batches: set<Batch>)

  /** Everything a core ever emitted, in order: votes signed, own headers and own certificates broadcast,
      certificates sent to consensus, batches of parents sent to the proposer. */
  datatype History = History(voted: seq<Header>, proposed: seq<Header>, assembled: seq<Certified>,
                             sent: seq<Certified>, parents: seq<(seq<Certified>, Round)>)

  /** The waiting sets hold what was handed to the header and certificate waiters, which may hand it back. */
  datatype Core = Core(gcRound: Round, lastVoted: map<Round, set<Key>>, processing: map<Round, set<nat>>,
                       current: Header, votes: Votes, parents: map<Round, Parents>, store: Store,
                       waitingHeaders: set<Header>, waitingCertificates: set<Certified>, log: History)

  const NO_HEADER := Header(0, 0, [], [], GENESIS_ID)

  function InitialCore(): Core {
    Core(0, map[], map[], NO_HEADER, NO_VOTES, map[], Store(map[], map[], {}), {}, {}, History([], [], [], [], []))
  }

  // ----- The maps from rounds to sets -----

  function At<T>(m: map<Round, set<T>>, r: Round): set<T> {
    if r in m then m[r] else {}
  }

  function Add<T>(m: map<Round, set<T>>, r: Round, x: T): map<Round, set<T>> {
    m[r := At(m, r) + {x}]
  }

  function From<T>(m: map<Round, T>, first: Round): map<Round, T> {
    map r | r in m && first <= r :: m[r]
  }

  // ----- The synchronizer -----

  function GenesisCertificate(k: Key): Certified {
    Certified(GenesisHeader(k), [])
  }

  function Available(cm: Committee, store: Store, d: Digest): Option<Certified> {
    if IsGenesisDigest(cm, d) then Some(GenesisCertificate(d.origin))
    else if d in store.certificates then Some(store.certificates[d])
    else None
  }

  /** The parents of a header if every one of them is available. */
  function GetParents(cm: Committee, store: Store, ds: seq<Digest>): Option<seq<Certified>> {
    if ds == [] then Some([])
    else match (Available(cm, store, ds[0]), GetParents(cm, store, ds[1..]))
      case (Some(c), Some(rest)) => Some([c] + rest)
      case _ => None
  }

  predicate Deliverable(cm: Committee, store: Store, c: Certified) {
    forall d :: d in c.header.parents ==> Available(cm, store, d).Some?
  }

  predicate MissingPayload(n: Authority, store: Store, h: Header) {
    h.author != n.name && exists b :: b in h.payload && b !in store.batches
  }

  /** All parents of the previous round, and enough stake behind them, counted parent by parent. */
  function CheckParents(cm: Committee, h: Header, parents: seq<Certified>, stake: nat): Result {
    if parents == [] then
      if cm.QuorumThreshold() <= stake then Ok else Err(HeaderRequiresQuorum(h.id))
    else if parents[0].header.round + 1 != h.round then Err(MalformedHeader(h.id))
    else CheckParents(cm, h, parents[1..], stake + cm.Stake(parents[0].header.author))
  }

  // ----- The handlers -----

  /** Whether the authority has yet to vote for the header it proposed last: its own vote is counted at most once. */
  function OwnVoteDue(n: Authority, s: Core): nat {
    if n.name in s.votes.used then 0 else 1
  }

  function Begin(s: Core, h: Header): Core {
    s.(processing := Add(s.processing, h.round, h.id))
  }

  function StoreHeader(s: Core, h: Header): Core {
    s.(store := s.store.(headers := s.store.headers[h.id := h]))
  }

  function RecordVote(s: Core, h: Header): Core {
    s.(lastVoted := Add(s.lastVoted, h.round, h.author), log := s.log.(voted := s.log.voted + [h]))
  }

  function ProcessHeader(n: Authority, s: Core, h: Header): (Core, Result)
    decreases OwnVoteDue(n, s), 2
  {
    var cm := n.committee;
    var s1 := Begin(s, h);
    match GetParents(cm, s.store, h.parents)
    case None => (s1.(waitingHeaders := s.waitingHeaders + {h}), Ok)
    case Some(parents) =>
      if parents == [] then (s1, Ok)
      else if !CheckParents(cm, h, parents, 0).Ok? then (s1, CheckParents(cm, h, parents, 0))
      else if MissingPayload(n, s.store, h) then (s1.(waitingHeaders := s.waitingHeaders + {h}), Ok)
      else
        var s2 := StoreHeader(s1, h);
        if h.author in At(s.lastVoted, h.round) then (s2, Ok)
        else
          var s3 := RecordVote(s2, h);
          if h.author == n.name then
            var (s4, r) := ProcessVote(n, s3, VoteFor(h, n.name));
            (s4, if r.Ok? then Ok else Panic)
          else (s3, if h.author in cm.stakes then Ok else Panic)
  }

  function ProcessVote(n: Authority, s: Core, v: Vote): (Core, Result)
    decreases OwnVoteDue(n, s), if v.author == n.name then 1 else 4
  {
    match AppendVote(n.committee, s.votes, v.author)
    case (_, Reused) => (s, Err(AuthorityReuse(v.author)))
    case (votes, Counted) => (s.(votes := votes), Ok)
    case (votes, Quorum(vs)) =>
      var c := Certified(s.current, vs);
      var s1 := s.(votes := votes, log := s.log.(assembled := s.log.assembled + [c]));
      var (s2, r) := ProcessCertificate(n, s1, c);
      (s2, if r.Ok? then Ok else Panic)
  }

  function ProcessCertificate(n: Authority, s: Core, c: Certified): (Core, Result)
    decreases OwnVoteDue(n, s), 3
  {
    var (s1, r) := if c.header.id in At(s.processing, c.header.round) then (s, Ok) else ProcessHeader(n, s, c.header);
    if !r.Ok? then (s1, r)
    else if !Deliverable(n.committee, s1.store, c) then
      (s1.(waitingCertificates := s1.waitingCertificates + {c}), Ok)
    else (Accept(n, s1, c), Ok)
  }

  /** Stores a certificate all of whose parents are available, and passes it on. */
  function Accept(n: Authority, s: Core, c: Certified): Core {
    var r := c.header.round;
    var pending := if r in s.parents then s.parents[r] else NO_PARENTS;
    var (pending', batch) := AppendCertificate(n.committee, pending, c);
    s.(store := s.store.(certificates := s.store.certificates[c.Digest() := c]),
       parents := s.parents[r := pending'],
       log := s.log.(parents := s.log.parents + (if batch.Some? then [(batch.value, r)] else []),
                     sent := s.log.sent + [c]))
  }

  function ProcessOwnHeader(n: Authority, s: Core, h: Header): (Core, Result) {
    ProcessHeader(n, s.(current := h, votes := NO_VOTES, log := s.log.(proposed := s.log.proposed + [h])), h)
  }

  // ----- The main loop -----

  function SanitizeHeader(n: Authority, hash: Hash, s: Core, h: Header): Result {
    if h.round < s.gcRound then Err(TooOld(h.id, h.round)) else VerifyHeader(n.committee, hash, h)
  }

  function SanitizeVote(n: Authority, s: Core, v: Vote): Result {
    if v.round < s.current.round then Err(TooOld(v.id, v.round))
    else if v.id != s.current.id || v.origin != s.current.author || v.round != s.current.round then
      Err(UnexpectedVote(v.id))
    else if n.committee.Stake(v.author) == 0 then Err(UnknownAuthority(v.author))
    else Ok
  }

  function SanitizeCertificate(n: Authority, hash: Hash, s: Core, c: Certified): Result {
    if c.header.round < s.gcRound then Err(TooOld(c.header.id, c.header.round))
    else Verify(n.committee, hash, c)
  }

  datatype Event =
    | HeaderIn(header: Header)
    | VoteIn(vote: Vote)
    | CertificateIn(certificate: Certified)
    | HeaderLoopback(header: Header)
    | CertificateLoopback(certificate: Certified)
    | OwnHeader(header: Header)
    | BatchStored(batch: Batch)

  function Handle(n: Authority, hash: Hash, s: Core, e: Event): (Core, Result) {
    match e
    case HeaderIn(h) =>
      var r := SanitizeHeader(n, hash, s, h);
      if r.Ok? then ProcessHeader(n, s, h) else (s, r)
    case VoteIn(v) =>
      var r := SanitizeVote(n, s, v);
      if r.Ok? then ProcessVote(n, s, v) else (s, r)
    case CertificateIn(c) =>
      var r := SanitizeCertificate(n, hash, s, c);
      if r.Ok? then ProcessCertificate(n, s, c) else (s, r)
    case HeaderLoopback(h) => ProcessHeader(n, s, h)
    case CertificateLoopback(c) => ProcessCertificate(n, s, c)
    case OwnHeader(h) => ProcessOwnHeader(n, s, h)
    case BatchStored(b) => (s.(store := s.store.(batches := s.store.batches + {b})), Ok)
  }

  /** Forgets the rounds that the consensus round leaves more than the depth of the garbage collector behind. */
  function Cleanup(n: Authority, s: Core, consensusRound: Round): Core {
    if consensusRound <= n.gcDepth then s
    else
      var first := consensusRound - n.gcDepth;
      s.(gcRound := first, lastVoted := From(s.lastVoted, first), processing := From(s.processing, first),
         parents := From(s.parents, first))
  }

  /** One turn of the main loop: a message, then the clean-up for the consensus round read after it. */
  datatype Turn = Turn(event: Event, consensusRound: Round)

  function Step(n: Authority, hash: Hash, s: Core, t: Turn): (Core, Result) {
    var (s', r) := Handle(n, hash, s, t.event);
    (if t.event.BatchStored? then s' else Cleanup(n, s', t.consensusRound), r)
  }

  /** The core after a sequence of turns. */
  function RunCore(n: Authority, hash: Hash, turns: seq<Turn>): Core
    decreases |turns|
  {
    if turns == [] then InitialCore()
    else Step(n, hash, RunCore(n, hash, turns[..|turns| - 1]), turns[|turns| - 1]).0
  }
}
