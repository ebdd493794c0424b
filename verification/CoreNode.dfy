/** The core of the certificate layer as the program keeps it: an object whose handlers update its fields in place. */
module CoreNode {
  import opened Committees
  import opened Dags
  import opened Messages
  import opened Aggregators
  import H = Handlers

  ghost predicate Apart(m: map<Round, CertificatesAggregator>) {
    forall r, q :: r in m && q in m && r != q ==> m[r] != m[q]
  }

  ghost function Rows(m: map<Round, CertificatesAggregator>): map<Round, Parents>
    reads m.Values
  {
    map r | r in m :: m[r].Value()
  }

  /** What `ProcessHeader` does with a header that passes all checks. */
  ghost function VoteAndCount(n: H.Authority, s: H.Core, h: Header): (H.Core, Result) {
    var s1 := H.RecordVote(s, h);
    if h.author != n.name then (s1, if h.author in n.committee.stakes then Ok else Panic)
    else
      var (s2, r) := H.ProcessVote(n, s1, VoteFor(h, n.name));
      (s2, if r.Ok? then Ok else Panic)
  }

  lemma Collected(m: map<Round, CertificatesAggregator>, first: Round)
    requires Apart(m)
    ensures Rows(H.From(m, first)) == H.From(Rows(m), first) && Apart(H.From(m, first))
    ensures H.From(m, first).Values <= m.Values
  {
  }

  /** The aggregator of a round is made when it is first asked for. */
  method Entry(m: map<Round, CertificatesAggregator>, round: Round) returns (m': map<Round, CertificatesAggregator>)
    requires Apart(m)
    ensures round in m' && Apart(m') && forall r :: r in m' ==> m'[r] in m.Values || fresh(m'[r])
    ensures var rows := Rows(m); Rows(m') == rows[round := if round in rows then rows[round] else NO_PARENTS]
  {
    m' := m;
    if round !in m' {
      var aggregator := new CertificatesAggregator();
      m' := m'[round := aggregator];
    }
  }

  /** Adds a certificate to the aggregator of a round. */
  method AppendAt(m: map<Round, CertificatesAggregator>, round: Round, c: Certified, committee: Committee)
    returns (batch: Option<seq<Certified>>)
    requires Apart(m) && round in m
    modifies m[round]
    ensures var rows := old(Rows(m)); var (a, b) := AppendCertificate(committee, rows[round], c);
            Rows(m) == rows[round := a] && batch == b
  {
    hide AppendCertificate;
    batch := m[round].Append(c, committee);
    assert forall r :: r in m && r != round ==> m[r].Value() == old(m[r].Value());
  }

  class Core {
    const committee: Committee
    const name: Key
    const gcDepth: Round
    var gcRound: Round
    var lastVoted: map<Round, set<Key>>
    var processing: map<Round, set<nat>>
    var currentHeader: Header
    var votesAggregator: VotesAggregator
    var certificatesAggregators: map<Round, CertificatesAggregator>
    var store: H.Store
    // What went out: to the waiters, and on the channels and the network.
    var waitingHeaders: set<Header>
    var waitingCertificates: set<Certified>
    var log: H.History

    /** No aggregator serves two rounds. */
    ghost predicate Valid()
      reads this
    {
      Apart(certificatesAggregators)
    }

    /** The aggregators are those of before or new ones. */
    twostate predicate Owned(votes: VotesAggregator, certificates: map<Round, CertificatesAggregator>)
      reads this
    {
      && (votesAggregator == votes || fresh(votesAggregator))
      && forall r :: r in certificatesAggregators ==>
           certificatesAggregators[r] in certificates.Values || fresh(certificatesAggregators[r])
    }

    ghost function Value(): H.Core
      reads this, votesAggregator, certificatesAggregators.Values
    {
      H.Core(gcRound, lastVoted, processing, currentHeader, votesAggregator.Value(), Rows(certificatesAggregators), store,
             waitingHeaders, waitingCertificates, log)
    }

    function Node(): H.Authority {
      H.Authority(committee, name, gcDepth)
    }

    constructor (committee: Committee, name: Key, gcDepth: Round)
      ensures this.committee == committee && this.name == name && this.gcDepth == gcDepth
      ensures Valid() && fresh(votesAggregator) && Value() == H.InitialCore()
    {
      this.committee, this.name, this.gcDepth := committee, name, gcDepth;
      gcRound, lastVoted, processing, currentHeader := 0, map[], map[], H.NO_HEADER;
      votesAggregator := new VotesAggregator();
      certificatesAggregators := map[];
      store := H.Store(map[], map[], {});
      waitingHeaders, waitingCertificates := {}, {};
      log := H.History([], [], [], [], []);
    }

    /** `None` stands for the empty vector the synchronizer returns when a parent is missing. */
    method GetParents(h: Header) returns (parents: Option<seq<Certified>>)
      ensures parents == H.GetParents(committee, store, h.parents)
    {
      var found: seq<Certified> := [];
      var missing: seq<Digest> := [];
      var i := |h.parents|;
      while 0 < i
        invariant 0 <= i <= |h.parents|
        invariant H.GetParents(committee, store, h.parents[i..]) == if missing == [] then Some(found) else None
      {
        i := i - 1;
        var d := h.parents[i];
        assert h.parents[i..][0] == d && h.parents[i..][1..] == h.parents[i + 1..];
        var parent := H.Available(committee, store, d);
        if parent.Some? {
          found := [parent.value] + found;
        } else {
          missing := [d] + missing;
        }
      }
      assert h.parents[0..] == h.parents;
      parents := if missing == [] then Some(found) else None;
    }

    method CheckParents(h: Header, parents: seq<Certified>) returns (r: Result)
      ensures r == H.CheckParents(committee, h, parents, 0)
    {
      var stake: nat := 0;
      var i := 0;
      while i < |parents|
        invariant 0 <= i <= |parents|
        invariant H.CheckParents(committee, h, parents[i..], stake) == H.CheckParents(committee, h, parents, 0)
      {
        assert parents[i..][0] == parents[i] && parents[i..][1..] == parents[i + 1..];
        if parents[i].header.round + 1 != h.round {
          return Err(MalformedHeader(h.id));
        }
        stake := stake + committee.Stake(parents[i].header.author);
        i := i + 1;
      }
      assert parents[i..] == [];
      r := if committee.QuorumThreshold() <= stake then Ok else Err(HeaderRequiresQuorum(h.id));
    }

    method MissingPayload(h: Header) returns (missing: bool)
      ensures missing == H.MissingPayload(Node(), store, h)
    {
      if h.author == name {
        return false;
      }
      var i := 0;
      while i < |h.payload|
        invariant 0 <= i <= |h.payload|
        invariant forall j :: 0 <= j < i ==> h.payload[j] in store.batches
      {
        if h.payload[i] !in store.batches {
          return true;
        }
        i := i + 1;
      }
      missing := false;
    }

    method DeliverCertificate(c: Certified) returns (ok: bool)
      modifies this`waitingCertificates
      ensures ok == H.Deliverable(committee, store, c)
      ensures waitingCertificates == old(waitingCertificates) + if ok then {} else {c}
    {
      var i := 0;
      while i < |c.header.parents|
        invariant 0 <= i <= |c.header.parents|
        invariant forall j :: 0 <= j < i ==> H.Available(committee, store, c.header.parents[j]).Some?
        invariant waitingCertificates == old(waitingCertificates)
      {
        if H.Available(committee, store, c.header.parents[i]).None? {
          waitingCertificates := waitingCertificates + {c};
          return false;
        }
        i := i + 1;
      }
      ok := true;
    }

    /** Everything before the vote: the result if the header gets none, or nothing if it is to be voted for. */
    method Screen(h: Header) returns (r: Option<Result>)
      modifies this`processing, this`waitingHeaders, this`store
      ensures var s := old(Value());
              if r.Some? then (Value(), r.value) == H.ProcessHeader(Node(), s, h)
              else && Value() == H.StoreHeader(H.Begin(s, h), h)
                   && H.ProcessHeader(Node(), s, h) == VoteAndCount(Node(), H.StoreHeader(H.Begin(s, h), h), h)
    {
      hide H.GetParents, H.CheckParents, H.MissingPayload, H.ProcessVote, H.Add, H.At, Rows, Apart;
      ghost var s := Value();
      processing := H.Add(processing, h.round, h.id);
      assert Value() == H.Begin(s, h);
      var parents := GetParents(h);
      if parents.None? {
        waitingHeaders := waitingHeaders + {h};
        return Some(Ok);
      }
      if parents.value == [] {
        return Some(Ok);
      }
      var checked := CheckParents(h, parents.value);
      if !checked.Ok? {
        return Some(checked);
      }
      var missing := MissingPayload(h);
      if missing {
        waitingHeaders := waitingHeaders + {h};
        return Some(Ok);
      }
      store := store.(headers := store.headers[h.id := h]);
      r := if h.author in H.At(lastVoted, h.round) then Some(Ok) else None;
    }

    method ProcessHeader(h: Header) returns (r: Result)
      requires Valid()
      modifies this, votesAggregator, certificatesAggregators.Values
      ensures Valid() && Owned(old(votesAggregator), old(certificatesAggregators))
      ensures (Value(), r) == H.ProcessHeader(Node(), old(Value()), h)
      decreases H.OwnVoteDue(Node(), Value()), 2
    {
      hide H.ProcessHeader, H.ProcessVote, H.Add, H.At, Rows, Apart;
      var screened := Screen(h);
      if screened.Some? {
        return screened.value;
      }
      ghost var s2 := Value();
      lastVoted := H.Add(lastVoted, h.round, h.author);
      log := log.(voted := log.voted + [h]);
      assert Value() == H.RecordVote(s2, h);
      if h.author == name {
        r := ProcessVote(VoteFor(h, name));
        r := if r.Ok? then Ok else Panic;
      } else {
        r := if h.author in committee.stakes then Ok else Panic;
      }
    }

    method ProcessVote(v: Vote) returns (r: Result)
      requires Valid()
      modifies this, votesAggregator, certificatesAggregators.Values
      ensures Valid() && Owned(old(votesAggregator), old(certificatesAggregators))
      ensures (Value(), r) == H.ProcessVote(Node(), old(Value()), v)
      decreases H.OwnVoteDue(Node(), Value()), if v.author == name then 1 else 4
    {
      var outcome := votesAggregator.Append(v.author, committee);
      match outcome
      case Reused =>
        r := Err(AuthorityReuse(v.author));
      case Counted =>
        r := Ok;
      case Quorum(vs) =>
        var c := Certified(currentHeader, vs);
        log := log.(assembled := log.assembled + [c]);
        r := ProcessCertificate(c);
        r := if r.Ok? then Ok else Panic;
    }

    method ProcessCertificate(c: Certified) returns (r: Result)
      requires Valid()
      modifies this, votesAggregator, certificatesAggregators.Values
      ensures Valid() && Owned(old(votesAggregator), old(certificatesAggregators))
      ensures (Value(), r) == H.ProcessCertificate(Node(), old(Value()), c)
      decreases H.OwnVoteDue(Node(), Value()), 3
    {
      if c.header.id !in H.At(processing, c.header.round) {
        r := ProcessHeader(c.header);
        if !r.Ok? {
          return;
        }
      }
      ghost var s1 := Value();
      var deliverable := DeliverCertificate(c);
      if !deliverable {
        assert Value() == s1.(waitingCertificates := s1.waitingCertificates + {c});
        return Ok;
      }
      assert Value() == s1;
      Accept(c);
      r := Ok;
    }

    /** Adds a certificate to the aggregator of its round, which gives a batch of parents once it has a quorum. */
    method Aggregate(c: Certified) returns (batch: Option<seq<Certified>>)
      requires Valid()
      modifies this`certificatesAggregators, certificatesAggregators.Values
      ensures Valid() && Owned(old(votesAggregator), old(certificatesAggregators))
      ensures var r, rows := c.header.round, old(Rows(certificatesAggregators));
              var (a, b) := AppendCertificate(committee, if r in rows then rows[r] else NO_PARENTS, c);
              Rows(certificatesAggregators) == rows[r := a] && batch == b
    {
      hide Rows, Apart, AppendCertificate;
      certificatesAggregators := Entry(certificatesAggregators, c.header.round);
      batch := AppendAt(certificatesAggregators, c.header.round, c, committee);
    }

    method Accept(c: Certified)
      requires Valid()
      modifies this, votesAggregator, certificatesAggregators.Values
      ensures Valid() && Owned(old(votesAggregator), old(certificatesAggregators))
      ensures Value() == H.Accept(Node(), old(Value()), c)
    {
      hide Rows, Apart, AppendCertificate;
      store := store.(certificates := store.certificates[c.Digest() := c]);
      var batch := Aggregate(c);
      if batch.Some? {
        log := log.(parents := log.parents + [(batch.value, c.header.round)]);
      }
      log := log.(sent := log.sent + [c]);
    }

    method ProcessOwnHeader(h: Header) returns (r: Result)
      requires Valid()
      modifies this, votesAggregator, certificatesAggregators.Values
      ensures Valid() && Owned(old(votesAggregator), old(certificatesAggregators))
      ensures (Value(), r) == H.ProcessOwnHeader(Node(), old(Value()), h)
    {
      ghost var s := Value();
      currentHeader := h;
      votesAggregator := new VotesAggregator();
      log := log.(proposed := log.proposed + [h]);
      assert Value() == s.(current := h, votes := NO_VOTES, log := s.log.(proposed := s.log.proposed + [h]));
      r := ProcessHeader(h);
    }

    method HandleEvent(hash: Hash, e: H.Event) returns (r: Result)
      requires committee.Valid()
      requires Valid()
      modifies this, votesAggregator, certificatesAggregators.Values
      ensures Valid() && Owned(old(votesAggregator), old(certificatesAggregators))
      ensures (Value(), r) == H.Handle(Node(), hash, old(Value()), e)
    {
      match e
      case HeaderIn(h) =>
        r := SanitizeHeader(hash, h);
        if r.Ok? {
          r := ProcessHeader(h);
        }
      case VoteIn(v) =>
        r := SanitizeVote(v);
        if r.Ok? {
          r := ProcessVote(v);
        }
      case CertificateIn(c) =>
        r := SanitizeCertificate(hash, c);
        if r.Ok? {
          r := ProcessCertificate(c);
        }
      case HeaderLoopback(h) =>
        r := ProcessHeader(h);
      case CertificateLoopback(c) =>
        r := ProcessCertificate(c);
      case OwnHeader(h) =>
        r := ProcessOwnHeader(h);
      case BatchStored(b) =>
        store := store.(batches := store.batches + {b});
        r := Ok;
    }

    method SanitizeHeader(hash: Hash, h: Header) returns (r: Result)
      ensures r == H.SanitizeHeader(Node(), hash, Value(), h)
    {
      r := if h.round < gcRound then Err(TooOld(h.id, h.round)) else VerifyHeader(committee, hash, h);
    }

    method SanitizeVote(v: Vote) returns (r: Result)
      ensures r == H.SanitizeVote(Node(), Value(), v)
    {
      r := if v.round < currentHeader.round then Err(TooOld(v.id, v.round))
      else if v.id != currentHeader.id || v.origin != currentHeader.author || v.round != currentHeader.round then
        Err(UnexpectedVote(v.id))
      else if committee.Stake(v.author) == 0 then Err(UnknownAuthority(v.author))
      else Ok;
    }

    method SanitizeCertificate(hash: Hash, c: Certified) returns (r: Result)
      requires committee.Valid()
      ensures r == H.SanitizeCertificate(Node(), hash, Value(), c)
    {
      if c.header.round < gcRound {
        return Err(TooOld(c.header.id, c.header.round));
      }
      r := VerifyCertificate(committee, hash, c);
    }

    method Cleanup(consensusRound: Round)
      requires Valid()
      modifies this, votesAggregator, certificatesAggregators.Values
      ensures Valid() && Owned(old(votesAggregator), old(certificatesAggregators))
      ensures Value() == H.Cleanup(Node(), old(Value()), consensusRound)
    {
      hide Rows, Apart, H.From;
      if gcDepth < consensusRound {
        var first := consensusRound - gcDepth;
        lastVoted := H.From(lastVoted, first);
        processing := H.From(processing, first);
        Collected(certificatesAggregators, first);
        certificatesAggregators := H.From(certificatesAggregators, first);
        gcRound := first;
      }
    }

    /** One turn of the main loop. */
    method TakeTurn(hash: Hash, t: H.Turn) returns (r: Result)
      requires committee.Valid()
      requires Valid()
      modifies this, votesAggregator, certificatesAggregators.Values
      ensures Valid() && Owned(old(votesAggregator), old(certificatesAggregators))
      ensures (Value(), r) == H.Step(Node(), hash, old(Value()), t)
    {
      r := HandleEvent(hash, t.event);
      if !t.event.BatchStored? {
        Cleanup(t.consensusRound);
      }
    }
  }
}
