/** The proposer as the program keeps it. */
module ProposerNode {
  import opened Committees
  import opened Dags
  import opened Messages
  import P = Proposing

  class Proposer {
    const params: P.Params
    var round: Round
    var lastParents: seq<Certified>
    var lastLeader: Option<Certified>
    var digests: seq<Batch>
    var payloadSize: nat
    var silenceRound: Round
    var silent: bool
    // A local variable of the main loop.
    var advance: bool
    // What went out on the channel to the core.
    var made: seq<Header>

    ghost function Value(): P.Proposer
      reads this
    {
      P.Proposer(round, lastParents, lastLeader, digests, payloadSize, silenceRound, silent, advance, made)
    }

    constructor (params: P.Params)
      requires params.committee.Valid()
      ensures this.params == params && Value() == P.InitialProposer(params)
    {
      this.params := params;
      round, lastParents, lastLeader, digests, payloadSize := 0, P.GenesisCertificates(params.committee.keys), None, [], 0;
      silenceRound, silent, advance, made := 1, P.ComputeSilence(params, 1), true, [];
    }

    method PrepareRound(r: Round)
      requires params.committee.Valid()
      modifies this`silenceRound, this`silent
      ensures Value() == P.PrepareRound(params, old(Value()), r)
    {
      silenceRound := r;
      silent := P.ComputeSilence(params, r);
    }

    method MakeHeader()
      modifies this`made, this`digests, this`lastParents
      ensures Value() == P.MakeHeader(params, old(Value()))
    {
      var payload := P.PayloadOf(digests);
      var parents := P.Once(P.DigestsOf(lastParents));
      var header := Header(params.name, round, payload, parents, params.hash(params.name, round, payload, parents));
      digests, lastParents := [], [];
      made := made + [header];
    }

    method UpdateLeader() returns (found: bool)
      requires params.committee.Valid()
      modifies this`lastLeader
      ensures lastLeader == P.Find(lastParents, params.committee.Leader(round)) && found == lastLeader.Some?
    {
      var leaderName := params.committee.Leader(round);
      var i := 0;
      while i < |lastParents| && lastParents[i].header.author != leaderName
        invariant 0 <= i <= |lastParents|
        invariant P.Find(lastParents[i..], leaderName) == P.Find(lastParents, leaderName)
      {
        assert lastParents[i..][1..] == lastParents[i + 1..];
        i := i + 1;
      }
      lastLeader := if i < |lastParents| then Some(lastParents[i]) else None;
      found := lastLeader.Some?;
    }

    method EnoughVotes() returns (enough: bool)
      ensures enough == P.EnoughVotes(params.committee, lastParents, lastLeader)
    {
      if lastLeader.None? {
        return true;
      }
      var leader := lastLeader.value.Digest();
      var votesForLeader: nat, noVotes: nat := 0, 0;
      var i := 0;
      while i < |lastParents|
        invariant 0 <= i <= |lastParents|
        invariant P.Tally(params.committee, lastParents[..i], leader) == (votesForLeader, noVotes)
      {
        assert lastParents[..i + 1][..i] == lastParents[..i];
        var stake := params.committee.Stake(lastParents[i].header.author);
        if leader in lastParents[i].header.parents {
          votesForLeader := votesForLeader + stake;
        } else {
          noVotes := noVotes + stake;
        }
        i := i + 1;
      }
      assert lastParents[..i] == lastParents;
      enough := params.committee.QuorumThreshold() <= votesForLeader || params.committee.ValidityThreshold() <= noVotes;
    }

    /** The top of the main loop: a new round, with a header unless this authority is silent in it. */
    method TryAdvance(timerExpired: bool)
      requires params.committee.Valid()
      modifies this
      ensures var s := old(Value());
              Value() == if P.Ready(params, s, timerExpired) then P.Advance(params, s) else s
    {
      hide P.ComputeSilence, P.Once, P.PayloadOf, P.DigestsOf, P.NewHeader;
      var enoughParents := lastParents != [];
      var enoughDigests := params.headerSize <= payloadSize;
      if (timerExpired || (enoughDigests && advance)) && enoughParents {
        round := round + 1;
        if silenceRound != round {
          PrepareRound(round);
        }
        if silent {
          lastParents, lastLeader := [], None;
        } else {
          MakeHeader();
          payloadSize := 0;
        }
      }
    }

    /** One turn of the main loop. */
    method TakeTurn(t: P.Turn)
      requires params.committee.Valid()
      modifies this
      ensures Value() == P.Step(params, old(Value()), t)
    {
      hide P.Find, P.EnoughVotes, P.ComputeSilence;
      TryAdvance(t.timerExpired);
      match t.event
      case ParentsIn(parents, r) =>
        if round < r {
          round := r;
          lastParents := parents;
          PrepareRound(r);
        } else if r == round {
          lastParents := lastParents + parents;
        }
        if round % 2 == 0 {
          advance := UpdateLeader();
        } else {
          advance := EnoughVotes();
        }
      case BatchIn(batch) =>
        payloadSize := payloadSize + P.DIGEST_SIZE;
        digests := digests + [batch];
      case Tick =>
    }
  }
}
