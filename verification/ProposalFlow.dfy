/** What the proposer makes of the batches of a core is what that core needs of its own headers. */
module ProposalFlow {
  import opened Collections
  import opened Committees
  import opened Dags
  import opened Messages
  import opened Aggregators
  import opened Handlers
  import opened Delivery
  import opened Proposing
  import opened ProposerSafety

  /** The digests of all certificates in some batches. */
  ghost function Contained(batches: seq<(seq<Certified>, Round)>): set<Digest> {
    set b, c | b in batches && c in b.0 :: c.Digest()
  }

  ghost predicate Sourced(cm: Committee, s: Proposing.Proposer, known: set<Digest>) {
    && (forall c :: c in s.lastParents ==> IsGenesisDigest(cm, c.Digest()) || c.Digest() in known)
    && (forall h :: h in s.made ==> ParentsAmong(cm, h.parents, known))
  }

  lemma AdvanceSourced(p: Params, s: Proposing.Proposer, known: set<Digest>)
    requires p.committee.Valid() && Sourced(p.committee, s, known)
    ensures Sourced(p.committee, Advance(p, s), known)
  {
    hide ComputeSilence, IsGenesisDigest, Once;
    var ds := DigestsOf(s.lastParents);
    OnceExact(ds);
    forall d | d in Once(ds)
      ensures IsGenesisDigest(p.committee, d) || d in known
    {
      var i :| 0 <= i < |ds| && ds[i] == d;
      assert s.lastParents[i] in s.lastParents;
    }
    assert ParentsAmong(p.committee, Once(ds), known);
  }

  lemma ReceiveSourced(p: Params, s: Proposing.Proposer, known: set<Digest>, e: Proposing.Event, more: set<Digest>)
    requires p.committee.Valid() && Sourced(p.committee, s, known) && known <= more
    requires e.ParentsIn? ==> forall c :: c in e.parents ==> c.Digest() in more
    ensures Sourced(p.committee, Receive(p, s, e), more)
  {
    hide ComputeSilence, IsGenesisDigest, Find, EnoughVotes;
    assert forall c :: c in s.lastParents ==> IsGenesisDigest(p.committee, c.Digest()) || c.Digest() in more;
    assert forall h :: h in s.made ==> ParentsAmong(p.committee, h.parents, more);
  }

  lemma {:induction false} GenesisSourced(cm: Committee, ks: seq<Key>)
    requires forall k :: k in ks ==> k in cm.keys
    ensures forall c :: c in GenesisCertificates(ks) ==> IsGenesisDigest(cm, c.Digest())
  {
    if ks != [] {
      assert ks[0] in ks && forall k :: k in ks[1..] ==> k in ks;
      GenesisSourced(cm, ks[1..]);
    }
  }

  lemma {:induction false} RunSourced(p: Params, turns: seq<Proposing.Turn>)
    requires p.committee.Valid()
    ensures Sourced(p.committee, RunProposer(p, turns), Contained(Batches(turns)))
    decreases |turns|
  {
    hide Sourced, ComputeSilence, Advance, Receive, Ready;
    if turns == [] {
      GenesisSourced(p.committee, p.committee.keys);
      InitiallySourced(p);
    } else {
      var before, t := turns[..|turns| - 1], turns[|turns| - 1];
      RunSourced(p, before);
      var s, known, more := RunProposer(p, before), Contained(Batches(before)), Contained(Batches(turns));
      ContainedGrows(turns);
      if Ready(p, s, t.timerExpired) {
        AdvanceSourced(p, s, known);
        ReceiveSourced(p, Advance(p, s), known, t.event, more);
      } else {
        ReceiveSourced(p, s, known, t.event, more);
      }
    }
  }

  lemma InitiallySourced(p: Params)
    requires p.committee.Valid()
    requires forall c :: c in GenesisCertificates(p.committee.keys) ==> IsGenesisDigest(p.committee, c.Digest())
    ensures Sourced(p.committee, InitialProposer(p), Contained(Batches([])))
  {
    hide ComputeSilence, IsGenesisDigest;
  }

  lemma ContainedGrows(turns: seq<Proposing.Turn>)
    requires turns != []
    ensures Contained(Batches(turns[..|turns| - 1])) <= Contained(Batches(turns))
    ensures var e := turns[|turns| - 1].event;
            e.ParentsIn? ==> forall c :: c in e.parents ==> c.Digest() in Contained(Batches(turns))
  {
    var e := turns[|turns| - 1].event;
    if e.ParentsIn? {
      assert (e.parents, e.round) in Batches(turns);
    }
  }

  lemma {:induction false} QuorumFirstPrefix(cm: Committee, batches: seq<(seq<Certified>, Round)>, n: nat)
    requires QuorumFirst(cm, batches) && n <= |batches|
    ensures QuorumFirst(cm, batches[..n])
    decreases |batches| - n
  {
    hide OfRound, HasQuorum, Rounds;
    if n < |batches| {
      QuorumFirstPrefix(cm, batches, n + 1);
      assert batches[..n + 1][..n] == batches[..n];
    } else {
      assert batches[..n] == batches;
    }
  }

  /**
   * A proposer that has received, in order, some of the batches its core sent makes only headers the core accepts at once:
   * distinct parents, all of the round below, holding a quorum, and all known to the core.
   */
  lemma OwnHeadersAreAccepted(n: Authority, s: Core, p: Params, turns: seq<Proposing.Turn>, h: Header)
    requires Ordered(n.committee, s) && p.committee == n.committee && p.name == n.name
    requires n.committee.Valid() && 0 < n.committee.Total()
    requires Batches(turns) <= s.log.parents && h in RunProposer(p, turns).made
    ensures Acceptable(n, s, h) && NoRepeats(h.parents) && h.author == n.name
  {
    hide Grounded, NoRepeats, ComputeSilence, ParentsFirst, QuorumFirst, Committee.Total, Once, RunProposer, Batches, IsGenesisDigest;
    var batches := Batches(turns);
    assert s.log.parents[..|batches|] == batches;
    QuorumFirstPrefix(n.committee, s.log.parents, |batches|);
    HeadersAreGood(p, turns);
    assert GoodHeader(p, h);
    RunSourced(p, turns);
    forall d | d in Contained(batches)
      ensures d in s.store.certificates.Keys
    {
      var b, c :| b in batches && c in b.0 && c.Digest() == d;
      assert b in s.log.parents && c in s.log.sent;
    }
  }
}
