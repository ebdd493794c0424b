/** What every run of a core keeps, whatever it receives: certificates leave for consensus after all their parents. */
module Delivery {
  import opened Committees
  import opened Dags
  import opened Messages
  import opened Aggregators
  import opened Handlers

  function Digests(cs: seq<Certified>): set<Digest> {
    set c | c in cs :: c.Digest()
  }

  predicate ParentsAmong(cm: Committee, ds: seq<Digest>, known: set<Digest>) {
    forall d :: d in ds ==> IsGenesisDigest(cm, d) || d in known
  }

  /** Each certificate comes after all its parents that are not genesis. */
  ghost predicate ParentsFirst(cm: Committee, sent: seq<Certified>)
    decreases |sent|
  {
    sent == [] ||
    var n := |sent| - 1;
    ParentsFirst(cm, sent[..n]) && ParentsAmong(cm, sent[n].header.parents, Digests(sent[..n]))
  }

  /** The store holds, each under its own digest, exactly the certificates already sent. */
  ghost predicate StoreIsSent(certificates: map<Digest, Certified>, sent: seq<Certified>) {
    && certificates.Keys == Digests(sent)
    && forall d :: d in certificates ==> certificates[d].Digest() == d && certificates[d] in sent
  }

  /** The batches for the proposer hold certificates already sent, and the first of each round holds a quorum. */
  ghost predicate Fed(cm: Committee, parents: map<Round, Parents>, batches: seq<(seq<Certified>, Round)>,
                      sent: seq<Certified>) {
    cm.Valid() ==>
      && (forall r :: r in parents ==>
            && Collecting(cm, parents[r]) && OfRound(parents[r].certificates, r)
            && (forall c :: c in parents[r].certificates ==> c in sent)
            && (cm.QuorumThreshold() <= parents[r].weight ==> r in Rounds(batches)))
      && QuorumFirst(cm, batches)
      && (forall b, c :: b in batches && c in b.0 ==> c in sent)
  }

  ghost predicate Ordered(cm: Committee, s: Core) {
    && StoreIsSent(s.store.certificates, s.log.sent) && ParentsFirst(cm, s.log.sent)
    && Fed(cm, s.parents, s.log.parents, s.log.sent)
  }

  /** What is never taken back while a message is handled. */
  ghost predicate Extends(s: Core, t: Core) {
    && t.gcRound == s.gcRound && t.current == s.current && t.log.proposed == s.log.proposed
    && s.log.voted <= t.log.voted && s.log.sent <= t.log.sent
    && s.store.certificates.Keys <= t.store.certificates.Keys
    && s.waitingHeaders <= t.waitingHeaders && s.waitingCertificates <= t.waitingCertificates
    && (forall r :: At(s.lastVoted, r) <= At(t.lastVoted, r))
    && (forall r :: At(s.processing, r) <= At(t.processing, r))
  }

  lemma ExtendsTransitive(s: Core, t: Core, u: Core)
    requires Extends(s, t) && Extends(t, u)
    ensures Extends(s, u)
  {
    hide At;
  }

  lemma AcceptExtends(n: Authority, s: Core, c: Certified)
    ensures Extends(s, Accept(n, s, c))
  {
    hide AppendCertificate, At;
  }

  lemma StoreAndSend(certificates: map<Digest, Certified>, sent: seq<Certified>, c: Certified)
    requires StoreIsSent(certificates, sent)
    ensures StoreIsSent(certificates[c.Digest() := c], sent + [c])
  {
    assert Digests(sent + [c]) == Digests(sent) + {c.Digest()};
  }

  lemma FedGrows(cm: Committee, parents: map<Round, Parents>, batches: seq<(seq<Certified>, Round)>,
                 sent: seq<Certified>, c: Certified)
    requires Fed(cm, parents, batches, sent)
    ensures var r := c.header.round;
            var (pending, batch) := AppendCertificate(cm, if r in parents then parents[r] else NO_PARENTS, c);
            Fed(cm, parents[r := pending], batches + (if batch.Some? then [(batch.value, r)] else []), sent + [c])
  {
    hide Committee.Weight, Committee.QuorumThreshold;
    if cm.Valid() {
      var r := c.header.round;
      var before := if r in parents then parents[r] else NO_PARENTS;
      var (pending, batch) := AppendCertificate(cm, before, c);
      if r !in parents {
        NothingCollected(cm);
      }
      CollectingStep(cm, before, c);
      BatchGrows(cm, batches, before, c);
    }
  }

  lemma NothingCollected(cm: Committee)
    requires cm.Valid()
    ensures Collecting(cm, NO_PARENTS) && NO_PARENTS.weight < cm.QuorumThreshold()
  {
    cm.WeightEmpty({});
    assert Aggregators.Origins([]) == {};
  }

  lemma BatchHasQuorum(cm: Committee, a: Parents, c: Certified)
    requires cm.Valid() && Collecting(cm, a)
    ensures var (b, batch) := AppendCertificate(cm, a, c);
            && (batch.Some? && a.weight < cm.QuorumThreshold() ==> HasQuorum(cm, batch.value))
            && (batch.None? && cm.QuorumThreshold() <= b.weight ==> cm.QuorumThreshold() <= a.weight)
  {
    CollectingStep(cm, a, c);
  }

  lemma BatchGrows(cm: Committee, batches: seq<(seq<Certified>, Round)>, a: Parents, c: Certified)
    requires cm.Valid() && QuorumFirst(cm, batches) && Collecting(cm, a) && OfRound(a.certificates, c.header.round)
    requires cm.QuorumThreshold() <= a.weight ==> c.header.round in Rounds(batches)
    ensures var (b, batch) := AppendCertificate(cm, a, c); var r := c.header.round;
            var after := batches + (if batch.Some? then [(batch.value, r)] else []);
            && QuorumFirst(cm, after) && OfRound(b.certificates, r) && Rounds(batches) <= Rounds(after)
            && (cm.QuorumThreshold() <= b.weight ==> r in Rounds(after))
  {
    hide Committee.Weight, Committee.QuorumThreshold, Collecting, HasQuorum;
    CollectingStep(cm, a, c);
    BatchHasQuorum(cm, a, c);
    var (b, batch) := AppendCertificate(cm, a, c);
    var r := c.header.round;
    if batch.Some? {
      var after := batches + [(batch.value, r)];
      assert after[..|after| - 1] == batches;
      assert (batch.value, r) in after;
    } else {
      var none: seq<(seq<Certified>, Round)> := [];
      assert batches + none == batches;
    }
  }

  lemma AcceptOrdered(n: Authority, s: Core, c: Certified)
    requires Ordered(n.committee, s) && Deliverable(n.committee, s.store, c)
    ensures Ordered(n.committee, Accept(n, s, c)) && Extends(s, Accept(n, s, c))
  {
    assert ParentsAmong(n.committee, c.header.parents, Digests(s.log.sent));
    hide AppendCertificate, Extends, StoreIsSent, Fed;
    AcceptExtends(n, s, c);
    FedGrows(n.committee, s.parents, s.log.parents, s.log.sent, c);
    StoreAndSend(s.store.certificates, s.log.sent, c);
    var sent := Accept(n, s, c).log.sent;
    assert sent[..|sent| - 1] == s.log.sent;
  }

  lemma RecordsExtend(s: Core, h: Header)
    ensures Extends(s, Begin(s, h))
    ensures Extends(s, StoreHeader(s, h))
    ensures Extends(s, RecordVote(s, h))
    ensures Extends(s, s.(waitingHeaders := s.waitingHeaders + {h}))
  {
  }

  lemma {:induction false} HeaderOrdered(n: Authority, s: Core, h: Header)
    requires Ordered(n.committee, s)
    ensures Ordered(n.committee, ProcessHeader(n, s, h).0) && Extends(s, ProcessHeader(n, s, h).0)
    decreases OwnVoteDue(n, s), 2
  {
    hide GetParents, CheckParents, ParentsFirst, ProcessVote, Extends, StoreIsSent;
    var s1 := Begin(s, h);
    RecordsExtend(s, h);
    RecordsExtend(s1, h);
    ExtendsTransitive(s, s1, s1.(waitingHeaders := s1.waitingHeaders + {h}));
    var s2 := StoreHeader(s1, h);
    ExtendsTransitive(s, s1, s2);
    RecordsExtend(s2, h);
    var s3 := RecordVote(s2, h);
    ExtendsTransitive(s, s2, s3);
    if h.author == n.name {
      VoteOrdered(n, s3, VoteFor(h, n.name));
      ExtendsTransitive(s, s3, ProcessVote(n, s3, VoteFor(h, n.name)).0);
    }
  }

  lemma {:induction false} VoteOrdered(n: Authority, s: Core, v: Vote)
    requires Ordered(n.committee, s)
    ensures Ordered(n.committee, ProcessVote(n, s, v).0) && Extends(s, ProcessVote(n, s, v).0)
    decreases OwnVoteDue(n, s), if v.author == n.name then 1 else 4
  {
    hide Fed, ParentsFirst, ProcessCertificate, At;
    var (votes, o) := AppendVote(n.committee, s.votes, v.author);
    if o.Quorum? {
      var c := Certified(s.current, o.votes);
      var s1 := s.(votes := votes, log := s.log.(assembled := s.log.assembled + [c]));
      CertificateOrdered(n, s1, c);
      ExtendsTransitive(s, s1, ProcessCertificate(n, s1, c).0);
    }
  }

  lemma {:induction false} CertificateOrdered(n: Authority, s: Core, c: Certified)
    requires Ordered(n.committee, s)
    ensures Ordered(n.committee, ProcessCertificate(n, s, c).0) && Extends(s, ProcessCertificate(n, s, c).0)
    decreases OwnVoteDue(n, s), 3
  {
    hide Fed, ParentsFirst, ProcessHeader, Accept, At;
    var s1 := s;
    if c.header.id !in At(s.processing, c.header.round) {
      HeaderOrdered(n, s, c.header);
      s1 := ProcessHeader(n, s, c.header).0;
    }
    if Deliverable(n.committee, s1.store, c) {
      AcceptOrdered(n, s1, c);
      ExtendsTransitive(s, s1, Accept(n, s1, c));
    }
    var s2 := s1.(waitingCertificates := s1.waitingCertificates + {c});
    assert Extends(s1, s2) && Ordered(n.committee, s2);
    ExtendsTransitive(s, s1, s2);
  }

  /** Causal delivery: in every run, of any messages in any order, a certificate is sent after all its parents. */
  lemma {:induction false} CausalDelivery(n: Authority, hash: Hash, turns: seq<Turn>)
    ensures Ordered(n.committee, RunCore(n, hash, turns))
    decreases |turns|
  {
    hide ProcessHeader, ProcessVote, ProcessCertificate;
    if turns == [] {
      assert Ordered(n.committee, InitialCore());
    } else {
      var m := |turns| - 1;
      CausalDelivery(n, hash, turns[..m]);
      HandleOrdered(n, hash, RunCore(n, hash, turns[..m]), turns[m].event);
    }
  }

  lemma HandleOrdered(n: Authority, hash: Hash, s: Core, e: Event)
    requires Ordered(n.committee, s)
    ensures Ordered(n.committee, Handle(n, hash, s, e).0)
  {
    hide Fed, ParentsFirst, ProcessHeader, ProcessVote, ProcessCertificate;
    match e
    case HeaderIn(h) => HeaderOrdered(n, s, h);
    case VoteIn(v) => VoteOrdered(n, s, v);
    case CertificateIn(c) => CertificateOrdered(n, s, c);
    case HeaderLoopback(h) => HeaderOrdered(n, s, h);
    case CertificateLoopback(c) => CertificateOrdered(n, s, c);
    case OwnHeader(h) =>
      HeaderOrdered(n, s.(current := h, votes := NO_VOTES, log := s.log.(proposed := s.log.proposed + [h])), h);
    case BatchStored(_) =>
  }

  /** The stake of the authors of a list of digests, counted digest by digest. */
  function StakeOf(cm: Committee, ds: seq<Digest>): nat {
    if ds == [] then 0 else cm.Stake(ds[0].origin) + StakeOf(cm, ds[1..])
  }

  ghost function Sources(ds: seq<Digest>): set<Key> {
    set d | d in ds :: d.origin
  }

  /** What a header needs of its parents: at least one, all of the round below, with a quorum of stake. */
  ghost predicate Grounded(cm: Committee, h: Header) {
    && h.parents != []
    && (forall d :: d in h.parents ==> d.round + 1 == h.round)
    && StakeOf(cm, h.parents) >= cm.QuorumThreshold()
  }

  lemma {:induction false} ParentsFound(cm: Committee, store: Store, ds: seq<Digest>)
    requires forall d :: d in store.certificates ==> store.certificates[d].Digest() == d
    ensures GetParents(cm, store, ds).Some? <==> ParentsAmong(cm, ds, store.certificates.Keys)
    ensures GetParents(cm, store, ds).Some? ==>
              var ps := GetParents(cm, store, ds).value;
              |ps| == |ds| && forall i :: 0 <= i < |ps| ==> ps[i].Digest() == ds[i]
  {
    if ds != [] {
      assert forall d :: d in ds <==> d == ds[0] || d in ds[1..];
      ParentsFound(cm, store, ds[1..]);
    }
  }

  lemma {:induction false} ParentsPass(cm: Committee, h: Header, ps: seq<Certified>, ds: seq<Digest>, stake: nat)
    requires |ps| == |ds| && forall i :: 0 <= i < |ps| ==> ps[i].Digest() == ds[i]
    ensures CheckParents(cm, h, ps, stake).Ok? <==>
            (forall d :: d in ds ==> d.round + 1 == h.round) && stake + StakeOf(cm, ds) >= cm.QuorumThreshold()
    ensures CheckParents(cm, h, ps, stake).Ok? || CheckParents(cm, h, ps, stake).Err?
    decreases |ps|
  {
    if ps != [] {
      assert ps[0].Digest() == ds[0];
      assert forall d :: d in ds <==> d == ds[0] || d in ds[1..];
      assert forall i :: 0 <= i < |ps[1..]| ==> ps[1..][i].Digest() == ds[1..][i];
      ParentsPass(cm, h, ps[1..], ds[1..], stake + cm.Stake(ps[0].header.author));
    }
  }

  /** When a header gets as far as a vote. */
  ghost predicate Acceptable(n: Authority, s: Core, h: Header) {
    && ParentsAmong(n.committee, h.parents, s.store.certificates.Keys)
    && Grounded(n.committee, h)
    && (h.author != n.name ==> forall b :: b in h.payload ==> b in s.store.batches)
  }

  /**
   * A header is voted for exactly if its parents are known and hold a quorum one round below, its payload is there,
   * and its author got no remembered vote for that round. An own header may bring further votes through the certificate
   * that the own vote completes.
   */
  lemma VoteExactly(n: Authority, s: Core, h: Header)
    requires Ordered(n.committee, s)
    ensures var t := ProcessHeader(n, s, h).0;
            if Acceptable(n, s, h) && h.author !in At(s.lastVoted, h.round)
            then && s.log.voted + [h] <= t.log.voted && h.author in At(t.lastVoted, h.round)
                 && (h.author != n.name ==>
                       t.log.voted == s.log.voted + [h] && t.lastVoted == Add(s.lastVoted, h.round, h.author))
            else t.log.voted == s.log.voted && t.lastVoted == s.lastVoted
  {
    hide GetParents, CheckParents, ParentsFirst, StakeOf, Committee.QuorumThreshold, ProcessVote, Fed, StoreIsSent;
    KnownParents(n, s, h);
    var s3 := RecordVote(StoreHeader(Begin(s, h), h), h);
    if h.author == n.name {
      VoteOrdered(n, s3, VoteFor(h, n.name));
    }
  }

  /** What the two checks on the parents of a header come to. */
  lemma KnownParents(n: Authority, s: Core, h: Header)
    requires Ordered(n.committee, s)
    ensures var ps := GetParents(n.committee, s.store, h.parents);
            && (ps.Some? <==> ParentsAmong(n.committee, h.parents, s.store.certificates.Keys))
            && (ps.Some? ==> (ps.value == [] <==> h.parents == []))
            && (ps.Some? && ps.value != [] ==>
                  && (CheckParents(n.committee, h, ps.value, 0).Ok? <==> Grounded(n.committee, h))
                  && !CheckParents(n.committee, h, ps.value, 0).Panic?)
  {
    ParentsFound(n.committee, s.store, h.parents);
    if GetParents(n.committee, s.store, h.parents).Some? {
      ParentsPass(n.committee, h, GetParents(n.committee, s.store, h.parents).value, h.parents, 0);
    }
  }
}
