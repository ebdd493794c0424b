/**
 * All honest authorities together: every run of their message handlers against a network and Byzantine authorities that
 * may deliver anything not signed by an honest one. What consensus assumes of the certificate layer is proved here.
 */
module Systems {
  import opened Collections
  import opened Committees
  import opened Dags
  import opened Messages
  import opened Handlers
  import opened Delivery
  import opened Protocol
  import opened CoreSafety
  import opened SecondVotes

  datatype Setup = Setup(committee: Committee, gcDepth: Round, honest: set<Key>) {
    ghost predicate Valid() {
      && committee.Valid()
      && (forall k :: k in honest ==> k in committee.keys)
      && 3 * committee.Weight((set k | k in committee.keys) - honest) < committee.Total()
    }

    function Node(k: Key): Authority {
      Authority(committee, k, gcDepth)
    }
  }

  /** One honest authority takes one turn of its main loop. */
  datatype Action = Action(node: Key, turn: Turn)

  ghost function Signed(cores: map<Key, Core>): World {
    World(map k | k in cores :: Members(cores[k].log.voted), map k | k in cores :: Members(cores[k].log.proposed))
  }

  function InitialCores(p: Setup): map<Key, Core> {
    map k | k in p.honest :: InitialCore()
  }

  function Act(p: Setup, hash: Hash, cores: map<Key, Core>, a: Action): map<Key, Core> {
    if a.node in cores then cores[a.node := Step(p.Node(a.node), hash, cores[a.node], a.turn).0] else cores
  }

  function RunSystem(p: Setup, hash: Hash, actions: seq<Action>): map<Key, Core>
    decreases |actions|
  {
    if actions == [] then InitialCores(p)
    else Act(p, hash, RunSystem(p, hash, actions[..|actions| - 1]), actions[|actions| - 1])
  }

  /** Each action is a turn of an honest authority on an admissible message, with consensus rounds that never go back. */
  ghost predicate Possible(p: Setup, hash: Hash, cores: map<Key, Core>, a: Action) {
    && a.node in cores
    && Admissible(p.Node(a.node), hash, Signed(cores), cores[a.node], a.turn.event)
    && Timely(p.Node(a.node), cores[a.node], a.turn)
  }

  ghost predicate PossibleRun(p: Setup, hash: Hash, actions: seq<Action>)
    decreases |actions|
  {
    actions == [] ||
    var m := |actions| - 1;
    PossibleRun(p, hash, actions[..m]) && Possible(p, hash, RunSystem(p, hash, actions[..m]), actions[m])
  }

  /** No turn casts a vote for a slot whose earlier vote was forgotten. */
  ghost predicate NeverRevotes(p: Setup, hash: Hash, actions: seq<Action>)
    decreases |actions|
  {
    actions == [] ||
    var m := |actions| - 1;
    NeverRevotes(p, hash, actions[..m]) && !Revoting(p, hash, RunSystem(p, hash, actions[..m]), actions[m])
  }

  ghost predicate Revoting(p: Setup, hash: Hash, cores: map<Key, Core>, a: Action) {
    a.node in cores && RevotesOn(p.Node(a.node), hash, cores[a.node], a.turn.event)
  }

  /** No core goes down. */
  ghost predicate NeverPanics(p: Setup, hash: Hash, actions: seq<Action>)
    decreases |actions|
  {
    actions == [] ||
    var m := |actions| - 1;
    NeverPanics(p, hash, actions[..m]) && !Panics(p, hash, RunSystem(p, hash, actions[..m]), actions[m])
  }

  predicate Panics(p: Setup, hash: Hash, cores: map<Key, Core>, a: Action) {
    a.node in cores && Step(p.Node(a.node), hash, cores[a.node], a.turn).1.Panic?
  }

  /** No turn votes a second time for an own header. */
  ghost predicate NeverRevotesOwn(p: Setup, hash: Hash, actions: seq<Action>)
    decreases |actions|
  {
    actions == [] ||
    var m := |actions| - 1;
    NeverRevotesOwn(p, hash, actions[..m]) && !RevotingOwn(p, hash, RunSystem(p, hash, actions[..m]), actions[m])
  }

  ghost predicate RevotingOwn(p: Setup, hash: Hash, cores: map<Key, Core>, a: Action) {
    a.node in cores && RevotesOwn(p.Node(a.node), hash, cores[a.node], a.turn.event)
  }

  ghost predicate Safe(p: Setup, hash: Hash, cores: map<Key, Core>) {
    && p.Valid() && cores.Keys == p.honest && WorldSound(p.committee, hash, Signed(cores))
    && forall k :: k in cores ==> Inv(p.Node(k), hash, Signed(cores), cores[k])
  }

  lemma InitiallySafe(p: Setup, hash: Hash)
    requires p.Valid() && Injective(hash)
    ensures Safe(p, hash, InitialCores(p))
  {
    hide VerifyHeader, Injective, Committee.Weight, Committee.Total, Inv;
    var cores := InitialCores(p);
    var w := Signed(cores);
    assert w.votes.Keys == p.honest && w.proposals.Keys == p.honest;
    assert Byzantine(p.committee, w) == (set k | k in p.committee.keys) - p.honest;
    forall k | k in cores
      ensures Inv(p.Node(k), hash, w, cores[k])
    {
      InvInitial(p.Node(k), hash, w);
    }
  }

  lemma SignedGrows(cores: map<Key, Core>, k: Key, s: Core)
    requires k in cores
    ensures Signed(cores[k := s]) == Grow(Signed(cores), k, s)
  {
    hide Members;
    var after, w := cores[k := s], Grow(Signed(cores), k, s);
    assert Signed(after).votes == w.votes;
    assert Signed(after).proposals == w.proposals;
  }

  lemma ActKeepsSafe(p: Setup, hash: Hash, cores: map<Key, Core>, a: Action)
    requires Safe(p, hash, cores) && Possible(p, hash, cores, a) && !RevotingOwn(p, hash, cores, a)
    ensures Safe(p, hash, Act(p, hash, cores, a))
  {
    hide WorldSound, Admissible, Timely, Step, Grow, Signed, Base, OwnSound, Setup.Valid, RevotesOwn;
    var w := Signed(cores);
    var s := Step(p.Node(a.node), hash, cores[a.node], a.turn).0;
    StepKeeps(p.Node(a.node), hash, w, cores[a.node], a.turn);
    SignedGrows(cores, a.node, s);
    var after := Act(p, hash, cores, a);
    var w' := Signed(after);
    WorldOf(p.Node(a.node), hash, w', s);
    hide Inv;
    forall k | k in after && k != a.node
      ensures Inv(p.Node(k), hash, w', after[k])
    {
      OthersRecorded(p, hash, cores, a.node, s, k);
      InvWidens(p.Node(k), hash, w, w', cores[k]);
    }
  }

  lemma OthersRecorded(p: Setup, hash: Hash, cores: map<Key, Core>, j: Key, s: Core, k: Key)
    requires j in cores && k in cores && k != j
    ensures Recorded(p.Node(k), Signed(cores[j := s]), cores[k].log.voted, cores[k].log.proposed)
  {
  }

  /** Short of a panic every honest core keeps its invariant, whatever the others send. */
  lemma {:induction false} RunIsSafe(p: Setup, hash: Hash, actions: seq<Action>)
    requires p.Valid() && Injective(hash) && PossibleRun(p, hash, actions) && NeverPanics(p, hash, actions)
    ensures Safe(p, hash, RunSystem(p, hash, actions)) && NeverRevotesOwn(p, hash, actions)
    decreases |actions|
  {
    hide Safe, Possible, RevotingOwn, Panics, Act, InitialCores, Setup.Valid, Injective;
    if actions == [] {
      InitiallySafe(p, hash);
    } else {
      var m := |actions| - 1;
      RunIsSafe(p, hash, actions[..m]);
      PanicsOnOwn(p, hash, RunSystem(p, hash, actions[..m]), actions[m]);
      ActKeepsSafe(p, hash, RunSystem(p, hash, actions[..m]), actions[m]);
    }
  }

  lemma PanicsOnOwn(p: Setup, hash: Hash, cores: map<Key, Core>, a: Action)
    requires Safe(p, hash, cores) && Possible(p, hash, cores, a)
    ensures Panics(p, hash, cores, a) <==> RevotingOwn(p, hash, cores, a)
  {
    hide Setup.Valid, Handle, RevotesOwn, Inv, WorldSound, Admissible, Signed;
    PanicsExactly(p.Node(a.node), hash, Signed(cores), cores[a.node], a.turn.event);
  }

  /** In every run no core goes down, no `expect` in its handlers failing, exactly if none votes again for an own header. */
  lemma {:induction false} NeverPanicsExactly(p: Setup, hash: Hash, actions: seq<Action>)
    requires p.Valid() && Injective(hash) && PossibleRun(p, hash, actions)
    ensures NeverPanics(p, hash, actions) <==> NeverRevotesOwn(p, hash, actions)
    decreases |actions|
  {
    hide Safe, Possible, RevotingOwn, Panics, Act, Setup.Valid, Injective;
    if actions != [] {
      var m := |actions| - 1;
      NeverPanicsExactly(p, hash, actions[..m]);
      if NeverPanics(p, hash, actions[..m]) {
        RunIsSafe(p, hash, actions[..m]);
        PanicsOnOwn(p, hash, RunSystem(p, hash, actions[..m]), actions[m]);
      }
    }
  }

  // ----- One vote per slot -----

  ghost predicate OneVoteEach(cores: map<Key, Core>) {
    forall k :: k in cores ==> VotesOnce(cores[k].log.voted)
  }

  /** Whatever happens, votes are never taken back. */
  lemma {:induction false} AlwaysOrdered(p: Setup, hash: Hash, actions: seq<Action>)
    ensures RunSystem(p, hash, actions).Keys == p.honest
    ensures forall k :: k in p.honest ==> Ordered(p.committee, RunSystem(p, hash, actions)[k])
    decreases |actions|
  {
    hide Step, Ordered;
    if actions == [] {
      StartsOrdered(p.committee);
    } else {
      var m := |actions| - 1;
      AlwaysOrdered(p, hash, actions[..m]);
      var cores, a := RunSystem(p, hash, actions[..m]), actions[m];
      if a.node in cores {
        VotedGrows(p.Node(a.node), hash, cores[a.node], a.turn);
      }
    }
  }

  lemma StartsOrdered(cm: Committee)
    ensures Ordered(cm, InitialCore())
  {
  }

  lemma TwiceForever(p: Setup, hash: Hash, cores: map<Key, Core>, a: Action)
    requires forall k :: k in cores ==> Ordered(p.committee, cores[k])
    requires Revoting(p, hash, cores, a) || !OneVoteEach(cores)
    ensures !OneVoteEach(Act(p, hash, cores, a))
  {
    hide RevotesOn, Ordered, VotesOnce, Step;
    var after := Act(p, hash, cores, a);
    if a.node in cores {
      var n, s := p.Node(a.node), cores[a.node];
      VotedGrows(n, hash, s, a.turn);
      assert a.node in after && after[a.node] == Step(n, hash, s, a.turn).0;
      if Revoting(p, hash, cores, a) {
        RevoteBreaks(n, hash, s, a.turn.event);
        CleanupLog(n, hash, s, a.turn);
      } else {
        var k :| k in cores && !VotesOnce(cores[k].log.voted);
        assert k in after;
        StillTwice(cores[k].log.voted, after[k].log.voted);
      }
    }
  }

  lemma {:induction false} TwiceBefore(p: Setup, hash: Hash, actions: seq<Action>)
    requires !NeverRevotes(p, hash, actions)
    ensures !OneVoteEach(RunSystem(p, hash, actions))
    decreases |actions|
  {
    hide Revoting, Act, OneVoteEach, Ordered;
    var m := |actions| - 1;
    AlwaysOrdered(p, hash, actions[..m]);
    if !NeverRevotes(p, hash, actions[..m]) {
      TwiceBefore(p, hash, actions[..m]);
    }
    TwiceForever(p, hash, RunSystem(p, hash, actions[..m]), actions[m]);
  }

  lemma {:induction false} RevotesOwnRevotes(p: Setup, hash: Hash, actions: seq<Action>)
    requires NeverRevotes(p, hash, actions)
    ensures NeverRevotesOwn(p, hash, actions)
    decreases |actions|
  {
    hide Revotes, Processed, RunSystem;
    if actions != [] {
      RevotesOwnRevotes(p, hash, actions[..|actions| - 1]);
    }
  }

  lemma ActVotesOnce(p: Setup, hash: Hash, cores: map<Key, Core>, a: Action)
    requires Safe(p, hash, cores) && Possible(p, hash, cores, a) && OneVoteEach(cores) && !Revoting(p, hash, cores, a)
    ensures OneVoteEach(Act(p, hash, cores, a))
  {
    hide Setup.Valid, Step, RevotesOn, Inv, WorldSound, Admissible, Signed, VotesOnce;
    OneVoteStep(p.Node(a.node), hash, Signed(cores), cores[a.node], a.turn);
  }

  lemma {:induction false} OnceThroughout(p: Setup, hash: Hash, actions: seq<Action>)
    requires p.Valid() && Injective(hash) && PossibleRun(p, hash, actions) && NeverRevotes(p, hash, actions)
    ensures OneVoteEach(RunSystem(p, hash, actions)) && NeverPanics(p, hash, actions)
    decreases |actions|
  {
    hide Safe, Possible, Revoting, Act, OneVoteEach, Setup.Valid, Injective, NeverPanics;
    RevotesOwnRevotes(p, hash, actions);
    NeverPanicsExactly(p, hash, actions);
    if actions == [] {
      NoVotesYet(p);
    } else {
      var m := |actions| - 1;
      OnceThroughout(p, hash, actions[..m]);
      RunIsSafe(p, hash, actions[..m]);
      ActVotesOnce(p, hash, RunSystem(p, hash, actions[..m]), actions[m]);
    }
  }

  lemma NoVotesYet(p: Setup)
    ensures OneVoteEach(InitialCores(p))
  {
  }

  /** Every honest authority votes at most once per author and round exactly if no turn casts a vote that was forgotten. */
  lemma OneVoteExactly(p: Setup, hash: Hash, actions: seq<Action>)
    requires p.Valid() && Injective(hash) && PossibleRun(p, hash, actions)
    ensures OneVoteEach(RunSystem(p, hash, actions)) <==> NeverRevotes(p, hash, actions)
  {
    hide Setup.Valid, Injective, RunSystem, PossibleRun, NeverRevotes, OneVoteEach;
    if NeverRevotes(p, hash, actions) {
      OnceThroughout(p, hash, actions);
    } else {
      TwiceBefore(p, hash, actions);
    }
  }

  lemma HonestVoteIsVoted(p: Setup, hash: Hash, cores: map<Key, Core>, k: Key, h: Header)
    requires Safe(p, hash, cores) && k in cores && VoteBacked(Signed(cores), k, h)
    ensures h in cores[k].log.voted
    ensures VotedSound(p.committee, hash, Signed(cores), cores[k].log.voted, cores[k].store.certificates.Keys)
    ensures Ordered(p.committee, cores[k]) && SentSound(p.committee, hash, Signed(cores), cores[k].log.sent)
  {
    hide WorldSound, Setup.Valid, VotedSound, SentSound, WaitingSound, SuspendedSound, VotesSound, Recorded, OwnSound;
    assert Inv(p.Node(k), hash, Signed(cores), cores[k]);
  }
}
