/**
 * What the handlers of a core do, one step at a time. Every handler, through its recursive calls, is a sequence of these steps,
 * each taken under its condition; what every step keeps, every run keeps.
 */
module Effects {
  import opened Committees
  import opened Dags
  import opened Messages
  import opened Aggregators
  import opened Handlers

  datatype Effect =
    | Started(header: Header)
    | Waits(header: Header)
    | Stored(header: Header)
    | Voted(header: Header)
    | Tallied(author: Key)
    | Suspended(certificate: Certified)
    | Accepted(certificate: Certified)

  function Do(n: Authority, s: Core, e: Effect): Core {
    match e
    case Started(h) => Begin(s, h)
    case Waits(h) => s.(waitingHeaders := s.waitingHeaders + {h})
    case Stored(h) => StoreHeader(s, h)
    case Voted(h) => RecordVote(s, h)
    case Tallied(k) =>
      var (votes, o) := AppendVote(n.committee, s.votes, k);
      s.(votes := votes,
         log := s.log.(assembled := s.log.assembled + (if o.Quorum? then [Certified(s.current, o.votes)] else [])))
    case Suspended(c) => s.(waitingCertificates := s.waitingCertificates + {c})
    case Accepted(c) => Accept(n, s, c)
  }

  ghost predicate PayloadThere(n: Authority, s: Core, h: Header) {
    h.author == n.name || forall b :: b in h.payload ==> b in s.store.batches
  }

  ghost predicate Known(cm: Committee, s: Core, d: Digest) {
    IsGenesisDigest(cm, d) || d in s.store.certificates
  }

  /** When a step is taken. */
  ghost predicate May(n: Authority, s: Core, e: Effect) {
    match e
    case Started(_) => true
    case Waits(h) => h.id in At(s.processing, h.round)
    case Stored(h) => h.id in At(s.processing, h.round) && PayloadThere(n, s, h)
    case Voted(h) =>
      && h.id in At(s.processing, h.round) && PayloadThere(n, s, h) && h.id in s.store.headers
      && h.author !in At(s.lastVoted, h.round)
    case Tallied(k) => k !in s.votes.used
    case Suspended(_) => true
    case Accepted(c) => forall d :: d in c.header.parents ==> Known(n.committee, s, d)
  }

  function DoAll(n: Authority, s: Core, es: seq<Effect>): Core
    decreases |es|
  {
    if es == [] then s else Do(n, DoAll(n, s, es[..|es| - 1]), es[|es| - 1])
  }

  ghost predicate MayAll(n: Authority, s: Core, es: seq<Effect>)
    decreases |es|
  {
    es == [] || (MayAll(n, s, es[..|es| - 1]) && May(n, DoAll(n, s, es[..|es| - 1]), es[|es| - 1]))
  }

  /** The steps lead from one state to the other. */
  ghost predicate Leads(n: Authority, s: Core, es: seq<Effect>, t: Core) {
    MayAll(n, s, es) && DoAll(n, s, es) == t
  }

  lemma LeadsNowhere(n: Authority, s: Core)
    ensures Leads(n, s, [], s)
  {
  }

  lemma LeadsOn(n: Authority, s: Core, es: seq<Effect>, t: Core, e: Effect)
    requires Leads(n, s, es, t) && May(n, t, e)
    ensures Leads(n, s, es + [e], Do(n, t, e))
  {
    hide May, Do;
    assert (es + [e])[..|es|] == es;
  }

  lemma {:induction false} LeadsThrough(n: Authority, s: Core, es: seq<Effect>, t: Core, fs: seq<Effect>, u: Core)
    requires Leads(n, s, es, t) && Leads(n, t, fs, u)
    ensures Leads(n, s, es + fs, u)
    decreases |fs|
  {
    hide May, Do;
    if fs == [] {
      assert es + fs == es;
    } else {
      var m := |fs| - 1;
      LeadsThrough(n, s, es, t, fs[..m], DoAll(n, t, fs[..m]));
      LeadsOn(n, s, es + fs[..m], DoAll(n, t, fs[..m]), fs[m]);
      assert es + fs[..m] + [fs[m]] == es + fs;
    }
  }

  lemma Begun(s: Core, h: Header)
    ensures h.id in At(Begin(s, h).processing, h.round) && Begin(s, h).store == s.store
    ensures Begin(s, h).lastVoted == s.lastVoted && Begin(s, h).votes == s.votes
  {
  }

  // ----- The handlers -----

  lemma {:induction false} HeaderSteps(n: Authority, s: Core, h: Header) returns (es: seq<Effect>)
    ensures Leads(n, s, es, ProcessHeader(n, s, h).0)
    decreases OwnVoteDue(n, s), 2
  {
    hide Leads, GetParents, CheckParents, ProcessVote, At, IsGenesisDigest;
    var cm := n.committee;
    var s1 := Begin(s, h);
    Begun(s, h);
    LeadsNowhere(n, s);
    LeadsOn(n, s, [], s, Started(h));
    es := [] + [Started(h)];
    var parents := GetParents(cm, s.store, h.parents);
    if parents.None? {
      LeadsOn(n, s, es, s1, Waits(h));
      es := es + [Waits(h)];
    } else if parents.value != [] && CheckParents(cm, h, parents.value, 0).Ok? {
      if MissingPayload(n, s.store, h) {
        LeadsOn(n, s, es, s1, Waits(h));
        es := es + [Waits(h)];
      } else {
        var s2 := StoreHeader(s1, h);
        LeadsOn(n, s, es, s1, Stored(h));
        es := es + [Stored(h)];
        if h.author !in At(s.lastVoted, h.round) {
          var s3 := RecordVote(s2, h);
          LeadsOn(n, s, es, s2, Voted(h));
          es := es + [Voted(h)];
          if h.author == n.name {
            var more := VoteSteps(n, s3, VoteFor(h, n.name));
            LeadsThrough(n, s, es, s3, more, ProcessVote(n, s3, VoteFor(h, n.name)).0);
            es := es + more;
          }
        }
      }
    }
  }

  lemma {:induction false} VoteSteps(n: Authority, s: Core, v: Vote) returns (es: seq<Effect>)
    ensures Leads(n, s, es, ProcessVote(n, s, v).0)
    decreases OwnVoteDue(n, s), if v.author == n.name then 1 else 4
  {
    hide Leads, ProcessCertificate;
    LeadsNowhere(n, s);
    es := [];
    var (votes, o) := AppendVote(n.committee, s.votes, v.author);
    if !o.Reused? {
      LeadsOn(n, s, es, s, Tallied(v.author));
      es := es + [Tallied(v.author)];
      var s1 := Do(n, s, Tallied(v.author));
      if o.Quorum? {
        var c := Certified(s.current, o.votes);
        var more := CertificateSteps(n, s1, c);
        LeadsThrough(n, s, es, s1, more, ProcessCertificate(n, s1, c).0);
        es := es + more;
      } else {
        assert s1 == ProcessVote(n, s, v).0;
      }
    }
  }

  lemma {:induction false} CertificateSteps(n: Authority, s: Core, c: Certified) returns (es: seq<Effect>)
    ensures Leads(n, s, es, ProcessCertificate(n, s, c).0)
    decreases OwnVoteDue(n, s), 3
  {
    hide Leads, ProcessHeader, At, IsGenesisDigest;
    LeadsNowhere(n, s);
    es := [];
    var s1, ok := s, true;
    if c.header.id !in At(s.processing, c.header.round) {
      es := HeaderSteps(n, s, c.header);
      s1, ok := ProcessHeader(n, s, c.header).0, ProcessHeader(n, s, c.header).1.Ok?;
    }
    if ok {
      if Deliverable(n.committee, s1.store, c) {
        LeadsOn(n, s, es, s1, Accepted(c));
        es := es + [Accepted(c)];
      } else {
        LeadsOn(n, s, es, s1, Suspended(c));
        es := es + [Suspended(c)];
      }
    }
  }

  /** Where the handling of an event starts: with a new current header, or one more batch in the store. */
  function Start(s: Core, e: Event): Core {
    match e
    case OwnHeader(h) => s.(current := h, votes := NO_VOTES, log := s.log.(proposed := s.log.proposed + [h]))
    case BatchStored(b) => s.(store := s.store.(batches := s.store.batches + {b}))
    case _ => s
  }

  lemma HandleSteps(n: Authority, hash: Hash, s: Core, e: Event) returns (es: seq<Effect>)
    ensures Leads(n, Start(s, e), es, Handle(n, hash, s, e).0)
  {
    hide Leads, ProcessHeader, ProcessVote, ProcessCertificate, SanitizeHeader, SanitizeVote, SanitizeCertificate;
    LeadsNowhere(n, Start(s, e));
    es := [];
    match e
    case HeaderIn(h) =>
      if SanitizeHeader(n, hash, s, h).Ok? {
        es := HeaderSteps(n, s, h);
      }
    case VoteIn(v) =>
      if SanitizeVote(n, s, v).Ok? {
        es := VoteSteps(n, s, v);
      }
    case CertificateIn(c) =>
      if SanitizeCertificate(n, hash, s, c).Ok? {
        es := CertificateSteps(n, s, c);
      }
    case HeaderLoopback(h) => es := HeaderSteps(n, s, h);
    case CertificateLoopback(c) => es := CertificateSteps(n, s, c);
    case OwnHeader(h) => es := HeaderSteps(n, Start(s, e), h);
    case BatchStored(_) =>
  }
}
