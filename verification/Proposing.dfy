/** The proposer as functions on values: when it enters a round, over which parents, and when it stays silent. */
module Proposing {
  import opened Committees
  import opened Dags
  import opened Messages
  import Adversary

  datatype Params = Params(committee: Committee, name: Key, headerSize: nat, faults: nat,
                           score: (Key, nat) -> nat, hash: Hash)

  const DIGEST_SIZE := 32

  /** `made` lists the headers handed to the core. */
  datatype Proposer = Proposer(round: Round, lastParents: seq<Certified>, lastLeader: Option<Certified>, digests: seq<Batch>,
                               payloadSize: nat, silenceRound: Round, silent: bool, advance: bool, made: seq<Header>)

  datatype Event = ParentsIn(parents: seq<Certified>, round: Round) | BatchIn(batch: Batch) | Tick

  /** One turn of the main loop: the check at its top, with the state of the timer, then an event. */
  datatype Turn = Turn(timerExpired: bool, event: Event)

  function ComputeSilence(p: Params, round: Round): bool
    requires p.committee.Valid()
  {
    Adversary.Selected(Adversary.ScoreIn(p.score, round), p.name, p.committee.keys, p.faults, p.committee.Leader(round))
  }

  function PrepareRound(p: Params, s: Proposer, round: Round): Proposer
    requires p.committee.Valid()
  {
    s.(silenceRound := round, silent := ComputeSilence(p, round))
  }

  function GenesisCertificates(ks: seq<Key>): seq<Certified> {
    if ks == [] then [] else [Certified(GenesisHeader(ks[0]), [])] + GenesisCertificates(ks[1..])
  }

  function InitialProposer(p: Params): Proposer
    requires p.committee.Valid()
  {
    PrepareRound(p, Proposer(0, GenesisCertificates(p.committee.keys), None, [], 0, 0, false, true, []), 1)
  }

  /** The elements of a sequence as the ordered set of a header holds them: without repetition. */
  function Once<T(==)>(xs: seq<T>): seq<T> {
    if xs == [] then []
    else
      var rest := Once(xs[..|xs| - 1]);
      if xs[|xs| - 1] in rest then rest else rest + [xs[|xs| - 1]]
  }

  /** The batches as the ordered map of a header holds them: of two with one digest the later stays. */
  function PayloadOf(xs: seq<Batch>): seq<Batch> {
    if xs == [] then []
    else
      var last := xs[|xs| - 1];
      OtherDigests(PayloadOf(xs[..|xs| - 1]), last.digest) + [last]
  }

  function OtherDigests(xs: seq<Batch>, digest: nat): seq<Batch> {
    if xs == [] then [] else (if xs[0].digest == digest then [] else [xs[0]]) + OtherDigests(xs[1..], digest)
  }

  function DigestsOf(cs: seq<Certified>): seq<Digest> {
    seq(|cs|, i requires 0 <= i < |cs| => cs[i].Digest())
  }

  function NewHeader(p: Params, s: Proposer): Header {
    var payload := PayloadOf(s.digests);
    var parents := Once(DigestsOf(s.lastParents));
    Header(p.name, s.round, payload, parents, p.hash(p.name, s.round, payload, parents))
  }

  function MakeHeader(p: Params, s: Proposer): Proposer {
    s.(made := s.made + [NewHeader(p, s)], digests := [], lastParents := [])
  }

  predicate Ready(p: Params, s: Proposer, timerExpired: bool) {
    (timerExpired || (p.headerSize <= s.payloadSize && s.advance)) && s.lastParents != []
  }

  /** Enters the next round, with a header unless this authority is silent in it. */
  function Advance(p: Params, s: Proposer): Proposer
    requires p.committee.Valid()
  {
    var s1 := s.(round := s.round + 1);
    var s2 := if s1.silenceRound != s1.round then PrepareRound(p, s1, s1.round) else s1;
    if s2.silent then s2.(lastParents := [], lastLeader := None)
    else MakeHeader(p, s2).(payloadSize := 0)
  }

  function Find(cs: seq<Certified>, k: Key): Option<Certified> {
    if cs == [] then None else if cs[0].header.author == k then Some(cs[0]) else Find(cs[1..], k)
  }

  /** The stake of the parents that list the leader, and of those that do not. */
  function Tally(cm: Committee, cs: seq<Certified>, leader: Digest): (nat, nat) {
    if cs == [] then (0, 0)
    else
      var (yes, no) := Tally(cm, cs[..|cs| - 1], leader);
      var c := cs[|cs| - 1];
      var stake := cm.Stake(c.header.author);
      if leader in c.header.parents then (yes + stake, no) else (yes, no + stake)
  }

  predicate EnoughVotes(cm: Committee, cs: seq<Certified>, leader: Option<Certified>) {
    match leader
    case None => true
    case Some(l) =>
      var (yes, no) := Tally(cm, cs, l.Digest());
      cm.QuorumThreshold() <= yes || cm.ValidityThreshold() <= no
  }

  function Consider(p: Params, s: Proposer): Proposer
    requires p.committee.Valid()
  {
    if s.round % 2 == 0 then
      var leader := Find(s.lastParents, p.committee.Leader(s.round));
      s.(lastLeader := leader, advance := leader.Some?)
    else s.(advance := EnoughVotes(p.committee, s.lastParents, s.lastLeader))
  }

  function Receive(p: Params, s: Proposer, e: Event): Proposer
    requires p.committee.Valid()
  {
    match e
    case ParentsIn(parents, round) =>
      var s1 :=
        if s.round < round then PrepareRound(p, s.(round := round, lastParents := parents), round)
        else if round < s.round then s
        else s.(lastParents := s.lastParents + parents);
      Consider(p, s1)
    case BatchIn(b) => s.(payloadSize := s.payloadSize + DIGEST_SIZE, digests := s.digests + [b])
    case Tick => s
  }

  function Step(p: Params, s: Proposer, t: Turn): Proposer
    requires p.committee.Valid()
  {
    Receive(p, if Ready(p, s, t.timerExpired) then Advance(p, s) else s, t.event)
  }

  function RunProposer(p: Params, turns: seq<Turn>): Proposer
    requires p.committee.Valid()
    decreases |turns|
  {
    if turns == [] then InitialProposer(p)
    else Step(p, RunProposer(p, turns[..|turns| - 1]), turns[|turns| - 1])
  }

  // ----- What the core sends -----

  /** The batches of parents received so far. */
  function Batches(turns: seq<Turn>): seq<(seq<Certified>, Round)>
    decreases |turns|
  {
    if turns == [] then []
    else
      var e := turns[|turns| - 1].event;
      Batches(turns[..|turns| - 1]) + (if e.ParentsIn? then [(e.parents, e.round)] else [])
  }
}
