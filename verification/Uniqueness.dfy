/**
 * One certificate per author and round: by stake. A header can be certified by those who voted for it and by Byzantine
 * authorities; a slot is safe as long as those who vote for two of its headers, or are Byzantine, hold at most a third.
 */
module Uniqueness {
  import opened Collections
  import opened Committees
  import opened Messages
  import opened Handlers
  import opened Protocol
  import opened Systems

  /** Who may stand in a certificate over `h`: honest authorities that voted for it, and Byzantine ones. */
  ghost function Endorsers(cm: Committee, w: World, h: Header): set<Key> {
    set k | k in cm.keys && VoteBacked(w, k, h)
  }

  ghost predicate Endorsed(cm: Committee, hash: Hash, w: World, h: Header) {
    SoundHeader(cm, hash, w, h) && cm.Weight(Endorsers(cm, w, h)) >= cm.QuorumThreshold()
  }

  // ----- Who can be certified -----

  /** The authorities of a set that have stake, in the order of the committee. */
  ghost function WithStake(cm: Committee, ks: seq<Key>, names: set<Key>): seq<Key> {
    if ks == [] then []
    else (if ks[0] in names && 0 < cm.Stake(ks[0]) then [ks[0]] else []) + WithStake(cm, ks[1..], names)
  }

  lemma {:induction false} WithStakeExact(cm: Committee, ks: seq<Key>, names: set<Key>)
    requires NoRepeats(ks)
    ensures NoRepeats(WithStake(cm, ks, names))
    ensures forall k :: k in WithStake(cm, ks, names) <==> k in ks && k in names && 0 < cm.Stake(k)
  {
    if ks != [] {
      var rest := ks[1..];
      assert forall i :: 0 <= i < |rest| ==> rest[i] == ks[i + 1];
      assert forall k :: k in ks <==> k == ks[0] || k in rest;
      WithStakeExact(cm, rest, names);
      assert ks[0] !in rest;
      var more := WithStake(cm, rest, names);
      assert forall i :: 0 <= i < |more| ==> more[i] in more;
    }
  }

  lemma {:induction false} WeightOfSame(cm: Committee, ks: seq<Key>, a: set<Key>, b: set<Key>)
    requires forall k :: k in ks && 0 < cm.Stake(k) ==> (k in a <==> k in b)
    ensures cm.WeightOf(ks, a) == cm.WeightOf(ks, b)
  {
    if ks != [] {
      assert ks[0] in ks && forall k :: k in ks[1..] ==> k in ks;
      WeightOfSame(cm, ks[1..], a, b);
    }
  }

  lemma Certify(cm: Committee, hash: Hash, w: World, h: Header) returns (c: Certified)
    requires cm.Valid() && Endorsed(cm, hash, w, h)
    ensures c.header == h && Backed(cm, hash, w, c)
  {
    hide SoundHeader, VoteBacked;
    var names := Endorsers(cm, w, h);
    var votes := WithStake(cm, cm.keys, names);
    WithStakeExact(cm, cm.keys, names);
    WeightOfSame(cm, cm.keys, Voters(votes), names);
    c := Certified(h, votes);
  }

  lemma BackedIsEndorsed(cm: Committee, hash: Hash, w: World, c: Certified)
    requires cm.Valid() && Backed(cm, hash, w, c)
    ensures Endorsed(cm, hash, w, c.header) && Voters(c.votes) <= Endorsers(cm, w, c.header)
  {
    hide SoundHeader, VoteBacked, NoRepeats, Committee.Weight;
    assert forall k :: k in c.votes ==> k in cm.stakes.Keys;
    cm.WeightMonotone(Voters(c.votes), Endorsers(cm, w, c.header));
  }

  /** A header can be certified exactly if its honest voters, together with the Byzantine authorities, hold a quorum. */
  lemma CertifiableExactly(cm: Committee, hash: Hash, w: World, h: Header)
    requires cm.Valid()
    ensures (exists c: Certified :: c.header == h && Backed(cm, hash, w, c)) <==> Endorsed(cm, hash, w, h)
  {
    hide Backed, Endorsed;
    if Endorsed(cm, hash, w, h) {
      var c := Certify(cm, hash, w, h);
    }
    if c: Certified :| c.header == h && Backed(cm, hash, w, c) {
      BackedIsEndorsed(cm, hash, w, c);
    }
  }

  // ----- Two headers of one slot -----

  /** Who may stand in certificates over both: Byzantine authorities, and honest ones that voted for both. */
  ghost function Doubles(cm: Committee, w: World, g: Header, h: Header): set<Key> {
    Byzantine(cm, w) + set k | k in cm.keys && k in w.votes && g in w.votes[k] && h in w.votes[k]
  }

  lemma EndorseBoth(cm: Committee, hash: Hash, w: World, g: Header, h: Header)
    requires cm.Valid() && Endorsed(cm, hash, w, g) && Endorsed(cm, hash, w, h)
    ensures 3 * cm.Weight(Doubles(cm, w, g, h)) > cm.Total()
  {
    hide SoundHeader, Committee.Weight;
    var a, b := Endorsers(cm, w, g), Endorsers(cm, w, h);
    assert a * b == Doubles(cm, w, g, h);
    cm.WeightUnion(a, b);
    cm.WeightMonotone(a + b, a + b);
  }

  /**
   * Two headers, of one slot or not, can both be certified exactly if each has a quorum of honest voters and Byzantine
   * authorities; then those who voted for both and the Byzantine authorities hold more than a third of the stake.
   */
  lemma BothCertifiableExactly(cm: Committee, hash: Hash, w: World, g: Header, h: Header)
    requires cm.Valid()
    ensures (exists c: Certified, d: Certified ::
               c.header == g && d.header == h && Backed(cm, hash, w, c) && Backed(cm, hash, w, d))
            <==> Endorsed(cm, hash, w, g) && Endorsed(cm, hash, w, h)
    ensures Endorsed(cm, hash, w, g) && Endorsed(cm, hash, w, h) ==> 3 * cm.Weight(Doubles(cm, w, g, h)) > cm.Total()
  {
    hide Backed, Endorsed, Committee.Weight;
    if Endorsed(cm, hash, w, g) && Endorsed(cm, hash, w, h) {
      EndorseBoth(cm, hash, w, g, h);
      var c := Certify(cm, hash, w, g);
      var d := Certify(cm, hash, w, h);
    }
    if c: Certified, d: Certified :|
        c.header == g && d.header == h && Backed(cm, hash, w, c) && Backed(cm, hash, w, d) {
      BackedIsEndorsed(cm, hash, w, c);
      BackedIsEndorsed(cm, hash, w, d);
    }
  }

  /** No author and round has two headers with a quorum of honest voters and Byzantine authorities. */
  ghost predicate OneHeaderPerSlot(cm: Committee, hash: Hash, w: World) {
    forall g, h :: Endorsed(cm, hash, w, g) && Endorsed(cm, hash, w, h) && InSlot(g, h.author, h.round) ==> g == h
  }

  ghost predicate OneCertifiedPerSlot(cm: Committee, hash: Hash, w: World) {
    forall c, d :: Backed(cm, hash, w, c) && Backed(cm, hash, w, d) && InSlot(c.header, d.header.author, d.header.round) ==>
      c.header == d.header
  }

  /** All certificates of an author and round are over one header exactly if no two of its headers are so endorsed. */
  lemma SlotsUniqueExactly(cm: Committee, hash: Hash, w: World)
    requires cm.Valid()
    ensures OneCertifiedPerSlot(cm, hash, w) <==> OneHeaderPerSlot(cm, hash, w)
  {
    hide Backed, Endorsed, InSlot;
    if OneHeaderPerSlot(cm, hash, w) {
      forall c, d | Backed(cm, hash, w, c) && Backed(cm, hash, w, d) && InSlot(c.header, d.header.author, d.header.round)
        ensures c.header == d.header
      {
        BackedIsEndorsed(cm, hash, w, c);
        BackedIsEndorsed(cm, hash, w, d);
      }
    }
    if OneCertifiedPerSlot(cm, hash, w) {
      forall g, h | Endorsed(cm, hash, w, g) && Endorsed(cm, hash, w, h) && InSlot(g, h.author, h.round)
        ensures g == h
      {
        var c := Certify(cm, hash, w, g);
        var d := Certify(cm, hash, w, h);
      }
    }
  }

  // ----- Runs -----

  lemma SameVoteSameHeader(voted: seq<Header>, g: Header, h: Header)
    requires VotesOnce(voted) && g in voted && h in voted && InSlot(g, h.author, h.round)
    ensures g == h
  {
    var i :| 0 <= i < |voted| && voted[i] == g;
    var j :| 0 <= j < |voted| && voted[j] == h;
  }

  /** Where everybody votes once, only Byzantine authorities stand behind two headers of a slot. */
  lemma OnlyByzantine(cm: Committee, cores: map<Key, Core>, g: Header, h: Header)
    requires OneVoteEach(cores) && InSlot(g, h.author, h.round) && g != h
    ensures Doubles(cm, Signed(cores), g, h) == Byzantine(cm, Signed(cores))
  {
    hide VotesOnce, InSlot;
    forall k | k in cores && g in cores[k].log.voted && h in cores[k].log.voted
      ensures false
    {
      SameVoteSameHeader(cores[k].log.voted, g, h);
    }
  }

  lemma ByzantineOf(p: Setup, cores: map<Key, Core>)
    requires p.Valid() && cores.Keys == p.honest
    ensures 3 * p.committee.Weight(Byzantine(p.committee, Signed(cores))) < p.committee.Total()
  {
    hide Committee.Weight, Committee.Total;
    assert Byzantine(p.committee, Signed(cores)) == (set k | k in p.committee.keys) - p.honest;
  }

  /**
   * At most one certificate per author and round: in every run, panics and second votes included, two certificates of a
   * slot are over one header unless the authorities that voted for both, with the Byzantine ones, hold more than a third
   * of the stake; that takes a second vote.
   */
  lemma OneCertificatePerSlot(p: Setup, hash: Hash, actions: seq<Action>, c: Certified, d: Certified)
    requires p.Valid() && Injective(hash) && PossibleRun(p, hash, actions)
    requires var w := Signed(RunSystem(p, hash, actions));
             Backed(p.committee, hash, w, c) && Backed(p.committee, hash, w, d)
    requires c.header.author == d.header.author && c.header.round == d.header.round
    ensures var w := Signed(RunSystem(p, hash, actions));
            c.header == d.header || 3 * p.committee.Weight(Doubles(p.committee, w, c.header, d.header)) > p.committee.Total()
    ensures NeverRevotes(p, hash, actions) ==> c.header == d.header
  {
    hide RunSystem, Backed, Endorsed, Injective, PossibleRun, NeverRevotes, Committee.Weight, Committee.Total, Signed, OneVoteEach;
    var cores := RunSystem(p, hash, actions);
    var w := Signed(cores);
    BackedIsEndorsed(p.committee, hash, w, c);
    BackedIsEndorsed(p.committee, hash, w, d);
    EndorseBoth(p.committee, hash, w, c.header, d.header);
    if NeverRevotes(p, hash, actions) && c.header != d.header {
      OneVoteExactly(p, hash, actions);
      OnlyByzantine(p.committee, cores, c.header, d.header);
      AlwaysOrdered(p, hash, actions);
      ByzantineOf(p, cores);
    }
  }

  /** ... so the slots of a run without second votes are unique. */
  lemma OnceIsUnique(p: Setup, hash: Hash, cores: map<Key, Core>)
    requires p.Valid() && cores.Keys == p.honest && OneVoteEach(cores)
    ensures OneHeaderPerSlot(p.committee, hash, Signed(cores))
  {
    hide Endorsed, Committee.Weight, Committee.Total, OneVoteEach, Signed, InSlot, Byzantine, Doubles;
    var cm, w := p.committee, Signed(cores);
    ByzantineOf(p, cores);
    forall g, h | Endorsed(cm, hash, w, g) && Endorsed(cm, hash, w, h) && InSlot(g, h.author, h.round)
      ensures g == h
    {
      EndorseBoth(cm, hash, w, g, h);
      if g != h {
        OnlyByzantine(cm, cores, g, h);
      }
    }
  }
}
