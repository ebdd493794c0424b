/** Counting votes into a certificate, and certificates into the parents of a round. */
module Aggregators {
  import opened Collections
  import opened Committees
  import opened Dags
  import opened Messages

  // ----- Votes -----

  datatype Votes = Votes(weight: nat, votes: seq<Key>, used: set<Key>)

  const NOBODY: set<Key> := {}

  const NO_VOTES := Votes(0, [], {})

  datatype VoteOutcome = Reused | Counted | Quorum(votes: seq<Key>)

  function AppendVote(cm: Committee, a: Votes, author: Key): (Votes, VoteOutcome) {
    if author in a.used then (a, Reused)
    else
      var votes := a.votes + [author];
      var weight := a.weight + cm.Stake(author);
      if cm.QuorumThreshold() <= weight then (Votes(0, votes, a.used + {author}), Quorum(votes))
      else (Votes(weight, votes, a.used + {author}), Counted)
  }

  /** The aggregator after a sequence of votes, with the outcome of each. */
  function Feed(cm: Committee, a: Votes, authors: seq<Key>): (Votes, seq<VoteOutcome>)
    decreases |authors|
  {
    if authors == [] then (a, [])
    else
      var (a1, o) := AppendVote(cm, a, authors[0]);
      var (a2, os) := Feed(cm, a1, authors[1..]);
      (a2, [o] + os)
  }

  /** Before its certificate an aggregator weighs all its voters; after it, those that came later. */
  ghost predicate Counting(cm: Committee, a: Votes, certified: set<Key>) {
    && a.used == Voters(a.votes) && NoRepeats(a.votes)
    && certified <= a.used
    && (certified != {} ==> cm.Weight(certified) >= cm.QuorumThreshold())
    && a.weight == cm.Weight(a.used - certified) < cm.QuorumThreshold()
  }

  lemma CountingStep(cm: Committee, a: Votes, certified: set<Key>, author: Key)
    requires cm.Valid() && Counting(cm, a, certified)
    ensures var (b, o) := AppendVote(cm, a, author);
            && (o.Quorum? ==> certified == {} && o.votes == b.votes && Counting(cm, b, b.used))
            && (!o.Quorum? ==> Counting(cm, b, certified))
            && (o.Quorum? <==> certified == {} && cm.Weight(a.used + {author}) >= cm.QuorumThreshold())
  {
    if author !in a.used {
      var late := a.used - certified;
      assert certified == {} ==> late == a.used;
      cm.WeightInsert(late, author);
      assert late + {author} == a.used + {author} - certified;
      cm.WeightUnion(late + {author}, certified);
      cm.WeightEmpty((late + {author}) * certified);
      cm.WeightMonotone(late + {author} + certified, late + {author} + certified);
      assert Voters(a.votes + [author]) == a.used + {author};
      cm.WeightEmpty({});
      assert a.used + {author} - (a.used + {author}) == NOBODY;
    } else {
      assert a.used + {author} == a.used;
      assert certified == {} ==> a.used - certified == a.used;
    }
  }

  ghost function QuorumCount(os: seq<VoteOutcome>): nat {
    if os == [] then 0 else (if os[0].Quorum? then 1 else 0) + QuorumCount(os[1..])
  }

  lemma {:induction false} FeedCounts(cm: Committee, a: Votes, certified: set<Key>, authors: seq<Key>)
    requires cm.Valid() && Counting(cm, a, certified)
    ensures var os := Feed(cm, a, authors).1;
            && (certified != {} ==> QuorumCount(os) == 0)
            && (certified == {} ==>
                  QuorumCount(os) == if cm.Weight(a.used + Voters(authors)) >= cm.QuorumThreshold() then 1 else 0)
            && (forall i :: 0 <= i < |os| && os[i].Quorum? ==>
                  NoRepeats(os[i].votes) && cm.Weight(Voters(os[i].votes)) >= cm.QuorumThreshold()
                  && Voters(os[i].votes) <= a.used + Voters(authors))
    decreases |authors|
  {
    if authors == [] {
      assert a.used + Voters(authors) == a.used && a.used - NOBODY == a.used;
    } else {
      var (b, o) := AppendVote(cm, a, authors[0]);
      CountingStep(cm, a, certified, authors[0]);
      assert Voters(authors) == {authors[0]} + Voters(authors[1..]);
      assert b.used == a.used + {authors[0]};
      assert b.used + Voters(authors[1..]) == a.used + Voters(authors);
      if o.Quorum? {
        cm.WeightMonotone(b.used, a.used + Voters(authors));
        FeedCounts(cm, b, b.used, authors[1..]);
      } else {
        FeedCounts(cm, b, certified, authors[1..]);
      }
    }
  }

  /**
   * Whatever votes arrive, repeated or not, at most one certificate comes out although the weight is reset to 0, and it
   * comes out exactly when the distinct voters hold a quorum. Its votes pass the checks of `Verify`.
   */
  lemma OneCertificate(cm: Committee, authors: seq<Key>)
    requires cm.Valid()
    ensures var os := Feed(cm, NO_VOTES, authors).1;
            && QuorumCount(os) == (if cm.Weight(Voters(authors)) >= cm.QuorumThreshold() then 1 else 0)
            && (forall i :: 0 <= i < |os| && os[i].Quorum? && (forall k :: k in authors ==> 0 < cm.Stake(k)) ==>
                  QuorumOfVotes(cm, os[i].votes))
  {
    cm.WeightEmpty({});
    assert NOBODY - NOBODY == NOBODY;
    FeedCounts(cm, NO_VOTES, {}, authors);
    assert {} + Voters(authors) == Voters(authors);
    var os := Feed(cm, NO_VOTES, authors).1;
    forall i, k | 0 <= i < |os| && os[i].Quorum? && k in os[i].votes
      ensures k in authors
    {
      assert k in Voters(os[i].votes);
    }
  }

  class VotesAggregator {
    var weight: nat
    var votes: seq<Key>
    var used: set<Key>

    ghost function Value(): Votes
      reads this
    {
      Votes(weight, votes, used)
    }

    constructor ()
      ensures Value() == NO_VOTES
    {
      weight, votes, used := 0, [], {};
    }

    method Append(author: Key, cm: Committee) returns (outcome: VoteOutcome)
      modifies this
      ensures (Value(), outcome) == AppendVote(cm, old(Value()), author)
    {
      if author in used {
        return Reused;
      }
      used := used + {author};
      votes := votes + [author];
      weight := weight + cm.Stake(author);
      if cm.QuorumThreshold() <= weight {
        weight := 0;
        return Quorum(votes);
      }
      outcome := Counted;
    }
  }

  // ----- Certificates of a round -----

  datatype Parents = Parents(weight: nat, certificates: seq<Certified>, used: set<Key>)

  const NO_PARENTS := Parents(0, [], {})

  /** The batch handed to the proposer, if any. The weight is not reset: every certificate after the quorum is a batch. */
  function AppendCertificate(cm: Committee, a: Parents, c: Certified): (Parents, Option<seq<Certified>>) {
    var origin := c.header.author;
    if origin in a.used then (a, None)
    else
      var certificates := a.certificates + [c];
      var weight := a.weight + cm.Stake(origin);
      if cm.QuorumThreshold() <= weight then (Parents(weight, [], a.used + {origin}), Some(certificates))
      else (Parents(weight, certificates, a.used + {origin}), None)
  }

  function Collect(cm: Committee, a: Parents, cs: seq<Certified>): (Parents, seq<seq<Certified>>)
    decreases |cs|
  {
    if cs == [] then (a, [])
    else
      var (a1, o) := AppendCertificate(cm, a, cs[0]);
      var (a2, batches) := Collect(cm, a1, cs[1..]);
      (a2, (match o case None => [] case Some(b) => [b]) + batches)
  }

  /** The certificates whose author is new, in order of arrival. */
  function FirstPerAuthor(cs: seq<Certified>, used: set<Key>): seq<Certified> {
    if cs == [] then []
    else if cs[0].header.author in used then FirstPerAuthor(cs[1..], used)
    else [cs[0]] + FirstPerAuthor(cs[1..], used + {cs[0].header.author})
  }

  function Concat(batches: seq<seq<Certified>>): seq<Certified> {
    if batches == [] then [] else batches[0] + Concat(batches[1..])
  }

  ghost function Origins(cs: seq<Certified>): set<Key> {
    set c | c in cs :: c.header.author
  }

  /** Below the quorum everything taken is pending; from the quorum on nothing is. */
  ghost predicate Collecting(cm: Committee, a: Parents) {
    && a.weight == cm.Weight(a.used)
    && (if a.weight < cm.QuorumThreshold() then a.used == Origins(a.certificates) else a.certificates == [])
  }

  lemma CollectingStep(cm: Committee, a: Parents, c: Certified)
    requires cm.Valid() && Collecting(cm, a)
    ensures var (b, o) := AppendCertificate(cm, a, c);
            && Collecting(cm, b)
            && (o.Some? <==> c.header.author !in a.used && cm.Weight(a.used + {c.header.author}) >= cm.QuorumThreshold())
            && (o.Some? && a.weight < cm.QuorumThreshold() ==> cm.Weight(Origins(o.value)) >= cm.QuorumThreshold())
            && (o.Some? && cm.QuorumThreshold() <= a.weight ==> o.value == [c])
  {
    if c.header.author !in a.used {
      cm.WeightInsert(a.used, c.header.author);
      assert Origins(a.certificates + [c]) == Origins(a.certificates) + {c.header.author};
    }
  }

  ghost predicate Singletons(batches: seq<seq<Certified>>) {
    forall i :: 0 <= i < |batches| ==> |batches[i]| == 1
  }

  function Handed(o: Option<seq<Certified>>): seq<Certified> {
    match o case None => [] case Some(b) => b
  }

  lemma AppendConserves(cm: Committee, a: Parents, c: Certified, tail: seq<Certified>)
    requires cm.Valid() && Collecting(cm, a)
    ensures var (b, o) := AppendCertificate(cm, a, c);
            && FirstPerAuthor([c] + tail, a.used) == FirstPerAuthor([c], a.used) + FirstPerAuthor(tail, b.used)
            && a.certificates + FirstPerAuthor([c], a.used) == Handed(o) + b.certificates
  {
    hide Committee.Weight, Committee.QuorumThreshold;
    CollectingStep(cm, a, c);
    assert ([c] + tail)[1..] == tail;
    assert [c][1..] == [];
  }

  lemma Regroup<T>(p: seq<T>, n: seq<T>, t: seq<T>, h: seq<T>, q: seq<T>, r: seq<T>, e: seq<T>)
    requires p + n == h + q && q + t == r + e
    ensures p + (n + t) == h + r + e
  {
    assert p + (n + t) == p + n + t;
    assert h + q + t == h + (q + t);
    assert h + (r + e) == h + r + e;
  }

  lemma ConcatStep(o: Option<seq<Certified>>, rest: seq<seq<Certified>>)
    ensures Concat((match o case None => [] case Some(b) => [b]) + rest) == Handed(o) + Concat(rest)
  {
    if o.Some? {
      assert ([o.value] + rest)[1..] == rest;
    } else {
      assert [] + rest == rest;
    }
  }

  /** Nothing is lost, repeated or reordered. */
  lemma {:induction false} CollectConserves(cm: Committee, a: Parents, cs: seq<Certified>)
    requires cm.Valid() && Collecting(cm, a)
    ensures var (b, batches) := Collect(cm, a, cs);
            a.certificates + FirstPerAuthor(cs, a.used) == Concat(batches) + b.certificates
    decreases |cs|
  {
    hide Committee.Weight, Committee.QuorumThreshold;
    if cs != [] {
      hide AppendCertificate, FirstPerAuthor, Concat;
      var (a1, o) := AppendCertificate(cm, a, cs[0]);
      assert cs == [cs[0]] + cs[1..];
      AppendConserves(cm, a, cs[0], cs[1..]);
      CollectingStep(cm, a, cs[0]);
      CollectConserves(cm, a1, cs[1..]);
      var (b, rest) := Collect(cm, a1, cs[1..]);
      ConcatStep(o, rest);
      Regroup(a.certificates, FirstPerAuthor([cs[0]], a.used), FirstPerAuthor(cs[1..], a1.used),
              Handed(o), a1.certificates, Concat(rest), b.certificates);
    }
  }

  /** Only the first batch can hold more than one certificate, and it holds a quorum. */
  lemma {:induction false} CollectBatches(cm: Committee, a: Parents, cs: seq<Certified>)
    requires cm.Valid() && Collecting(cm, a)
    ensures var batches := Collect(cm, a, cs).1;
            && (a.weight < cm.QuorumThreshold() && batches != [] ==>
                  cm.Weight(Origins(batches[0])) >= cm.QuorumThreshold() && Singletons(batches[1..]))
            && (cm.QuorumThreshold() <= a.weight ==> Singletons(batches))
    decreases |cs|
  {
    hide Committee.Weight, Committee.QuorumThreshold;
    if cs != [] {
      var (a1, o) := AppendCertificate(cm, a, cs[0]);
      CollectingStep(cm, a, cs[0]);
      CollectBatches(cm, a1, cs[1..]);
      cm.WeightMonotone(a.used, a1.used);
      var rest := Collect(cm, a1, cs[1..]).1;
      assert o.Some? ==> ([o.value] + rest)[1..] == rest;
    }
  }

  /** The stream of batches a round hands to the proposer: a quorum first, then one new author at a time. */
  lemma ParentsConserved(cm: Committee, cs: seq<Certified>)
    requires cm.Valid()
    ensures var (b, batches) := Collect(cm, NO_PARENTS, cs);
            && Concat(batches) + b.certificates == FirstPerAuthor(cs, {})
            && (batches != [] ==> cm.Weight(Origins(batches[0])) >= cm.QuorumThreshold() && Singletons(batches[1..]))
  {
    cm.WeightEmpty({});
    assert Origins([]) == {};
    CollectConserves(cm, NO_PARENTS, cs);
    CollectBatches(cm, NO_PARENTS, cs);
    assert [] + FirstPerAuthor(cs, {}) == FirstPerAuthor(cs, {});
  }

  lemma {:induction false} FirstOrigins(cs: seq<Certified>, used: set<Key>)
    ensures Origins(FirstPerAuthor(cs, used)) == Origins(cs) - used
    ensures forall f :: f in FirstPerAuthor(cs, used) ==> f in cs
    decreases |cs|
  {
    if cs != [] {
      var k := cs[0].header.author;
      assert forall c :: c in cs <==> c == cs[0] || c in cs[1..];
      assert Origins(cs) == {k} + Origins(cs[1..]);
      if k in used {
        FirstOrigins(cs[1..], used);
      } else {
        FirstOrigins(cs[1..], used + {k});
        var rest := FirstPerAuthor(cs[1..], used + {k});
        assert Origins([cs[0]] + rest) == {k} + Origins(rest);
      }
    }
  }

  /** The first certificates per author repeat no author and cover every author. */
  lemma {:induction false} FirstPerAuthorExact(cs: seq<Certified>, used: set<Key>)
    ensures var fs := FirstPerAuthor(cs, used);
            && (forall i, j :: 0 <= i < j < |fs| ==> fs[i].header.author != fs[j].header.author)
            && Origins(fs) == Origins(cs) - used
            && (forall f :: f in fs ==> f in cs)
    decreases |cs|
  {
    FirstOrigins(cs, used);
    if cs != [] {
      var k := cs[0].header.author;
      FirstPerAuthorExact(cs[1..], if k in used then used else used + {k});
      var rest := FirstPerAuthor(cs[1..], used + {k});
      FirstOrigins(cs[1..], used + {k});
      forall i | 0 <= i < |rest|
        ensures rest[i].header.author != k
      {
        assert rest[i].header.author in Origins(rest);
      }
    }
  }

  // ----- The batches of all rounds -----

  ghost predicate OfRound(cs: seq<Certified>, r: Round) {
    forall c :: c in cs ==> c.header.round == r
  }

  ghost predicate HasQuorum(cm: Committee, cs: seq<Certified>) {
    cm.Weight(Origins(cs)) >= cm.QuorumThreshold()
  }

  ghost function Rounds(batches: seq<(seq<Certified>, Round)>): set<Round> {
    set b | b in batches :: b.1
  }

  /** Every batch is of its round, and the first of a round holds a quorum. */
  ghost predicate QuorumFirst(cm: Committee, batches: seq<(seq<Certified>, Round)>)
    decreases |batches|
  {
    batches == [] ||
    var m := |batches| - 1;
    var (cs, r) := batches[m];
    && QuorumFirst(cm, batches[..m])
    && OfRound(cs, r)
    && (r !in Rounds(batches[..m]) ==> HasQuorum(cm, cs))
  }

  class CertificatesAggregator {
    var weight: nat
    var certificates: seq<Certified>
    var used: set<Key>

    ghost function Value(): Parents
      reads this
    {
      Parents(weight, certificates, used)
    }

    constructor ()
      ensures Value() == NO_PARENTS
    {
      weight, certificates, used := 0, [], {};
    }

    method Append(certificate: Certified, cm: Committee) returns (batch: Option<seq<Certified>>)
      modifies this
      ensures (Value(), batch) == AppendCertificate(cm, old(Value()), certificate)
    {
      var origin := certificate.header.author;
      if origin in used {
        return None;
      }
      used := used + {origin};
      certificates := certificates + [certificate];
      weight := weight + cm.Stake(origin);
      if cm.QuorumThreshold() <= weight {
        batch := Some(certificates);
        certificates := [];
        return;
      }
      batch := None;
    }
  }
}
