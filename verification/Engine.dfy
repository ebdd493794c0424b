/**
 * The commit engine as functions on values: what one delivered certificate does to the consensus state.
 * The in-memory DAG appears as the set of the certificates it holds; `ConsensusNode` keeps it as a map of maps.
 */
module Engine {
  import opened Collections
  import opened Committees
  import opened Dags

  /**
   * `walkStep` is the distance from a leader to the first round its backward walk visits: the code starts at
   * the round just below (1); the protocol's anchors sit two rounds apart (2).
   */
  datatype Config = Config(committee: Committee, gcDepth: Round, dynamic: bool, walkStep: nat)

  datatype State = State(lastCommittedRound: Round, lastCommitted: map<Key, Round>,
                         dag: set<Certificate>, resolved: set<Round>)

  // ----- The state and its clean-up -----

  ghost function MaxOf(rs: set<Round>): (m: Round)
    ensures rs == {} ==> m == 0
    ensures rs != {} ==> m in rs
    ensures forall r :: r in rs ==> r <= m
  {
    if rs == {} then 0
    else
      var r :| r in rs;
      var rest := MaxOf(rs - {r});
      assert rs == {r} + (rs - {r});
      if r <= rest then rest else r
  }

  ghost function InitialState(cm: Committee): State {
    State(0, map k | k in cm.keys :: 0, Genesis(cm), {})
  }

  ghost function Insert(s: State, c: Certificate): State {
    s.(dag := (set x | x in s.dag && !SameSlot(x, c)) + {c})
  }

  function Bumped(lc: map<Key, Round>, c: Certificate): map<Key, Round> {
    lc[c.author := if c.author in lc && c.round <= lc[c.author] then lc[c.author] else c.round]
  }

  ghost predicate Kept(lc: map<Key, Round>, lcr: Round, gcDepth: Round, x: Certificate) {
    (x.author in lc ==> lc[x.author] <= x.round) && lcr <= x.round + gcDepth
  }

  ghost function Update(s: State, c: Certificate, gcDepth: Round): State {
    var lc := Bumped(s.lastCommitted, c);
    var lcr := MaxOf(lc.Values);
    s.(lastCommittedRound := lcr, lastCommitted := lc, dag := set x | x in s.dag && Kept(lc, lcr, gcDepth, x))
  }

  ghost function UpdateAll(s: State, xs: seq<Certificate>, gcDepth: Round): State
    decreases |xs|
  {
    if xs == [] then s else UpdateAll(Update(s, xs[0], gcDepth), xs[1..], gcDepth)
  }

  // ----- Paths between leaders -----

  /** The certificates of round `r` found by walking down from `x` one round at a time. */
  ghost function Level(dag: set<Certificate>, x: Certificate, r: Round): set<Certificate>
    decreases x.round - r
  {
    if x.round <= r then {x}
    else set c | c in dag && c.round == r && exists y :: y in Level(dag, x, r + 1) && Edge(y, c)
  }

  ghost predicate Linked(dag: set<Certificate>, x: Certificate, y: Certificate) {
    exists z :: z in Level(dag, x, y.round) && z.Digest() == y.Digest()
  }

  ghost function Lookup(dag: set<Certificate>, k: Key, r: Round): Option<Certificate> {
    if exists c :: c in dag && c.author == k && c.round == r then
      var c :| c in dag && c.author == k && c.round == r;
      Some(c)
    else None
  }

  ghost function LeaderAt(cm: Committee, dag: set<Certificate>, r: Round): Option<Certificate>
    requires cm.Valid()
  {
    Lookup(dag, cm.Leader(r), r)
  }

  /** `from`, `from - 2`, ... down to `to`. */
  function RoundsDown(from: int, to: Round): seq<Round>
    decreases from
  {
    if from < to then [] else [from] + RoundsDown(from - 2, to)
  }

  /** The leaders met below `leader` on the given rounds, each linked to the one met before it; latest first. */
  ghost function Walk(cm: Committee, dag: set<Certificate>, rounds: seq<Round>, leader: Certificate): seq<Certificate>
    requires cm.Valid()
    decreases |rounds|
  {
    if rounds == [] then []
    else match LeaderAt(cm, dag, rounds[0])
      case None => Walk(cm, dag, rounds[1..], leader)
      case Some(prev) =>
        if Linked(dag, leader, prev) then [prev] + Walk(cm, dag, rounds[1..], prev)
        else Walk(cm, dag, rounds[1..], leader)
  }

  ghost function OrderLeaders(cfg: Config, s: State, leader: Certificate): seq<Certificate>
    requires cfg.committee.Valid()
  {
    [leader] + Walk(cfg.committee, s.dag, RoundsDown(leader.round - cfg.walkStep, s.lastCommittedRound + 2), leader)
  }

  // ----- Flattening a sub-DAG -----

  ghost predicate Skipped(s: State, c: Certificate) {
    c.author in s.lastCommitted && s.lastCommitted[c.author] == c.round
  }

  /** The certificates the depth-first search may push. */
  ghost function Visible(s: State): set<Certificate> {
    set c | c in s.dag && !Skipped(s, c)
  }

  ghost function FindParent(v: set<Certificate>, x: Certificate, d: Digest): Option<Certificate> {
    if exists p :: p in v && p.round + 1 == x.round && p.Digest() == d then
      var p :| p in v && p.round + 1 == x.round && p.Digest() == d;
      Some(p)
    else None
  }

  ghost function Unmarked(v: set<Certificate>, marked: set<Digest>): set<Certificate> {
    set c | c in v && c.Digest() !in marked
  }

  /** Pushes the parents of `x` not pushed before, in order. */
  ghost function PushParents(v: set<Certificate>, x: Certificate, ds: seq<Digest>,
                             stack: seq<Certificate>, marked: set<Digest>): (r: (seq<Certificate>, set<Digest>))
    ensures r == (stack, marked) || |Unmarked(v, r.1)| < |Unmarked(v, marked)|
    decreases |ds|
  {
    if ds == [] then (stack, marked)
    else match FindParent(v, x, ds[0])
      case None => PushParents(v, x, ds[1..], stack, marked)
      case Some(p) =>
        if ds[0] in marked then PushParents(v, x, ds[1..], stack, marked)
        else
          assert Unmarked(v, marked + {ds[0]}) <= Unmarked(v, marked) - {p};
          SubsetSmaller(Unmarked(v, marked + {ds[0]}), Unmarked(v, marked), p);
          PushParents(v, x, ds[1..], stack + [p], marked + {ds[0]})
  }

  lemma SubsetSmaller<T>(a: set<T>, b: set<T>, x: T)
    requires a <= b - {x} && x in b
    ensures |a| < |b|
  {
    SubsetSize(a, b - {x});
  }

  lemma {:induction false} SubsetSize<T>(a: set<T>, b: set<T>)
    requires a <= b
    ensures |a| <= |b|
    decreases |a|
  {
    if a != {} {
      var x :| x in a;
      SubsetSize(a - {x}, b - {x});
    }
  }

  /** The pre-order sequence of a depth-first search with an explicit stack, popped from the end. */
  ghost function Dfs(v: set<Certificate>, stack: seq<Certificate>, marked: set<Digest>): seq<Certificate>
    decreases |Unmarked(v, marked)|, |stack|
  {
    if stack == [] then []
    else
      var x := stack[|stack| - 1];
      var (st, mk) := PushParents(v, x, x.parents, stack[..|stack| - 1], marked);
      [x] + Dfs(v, st, mk)
  }

  function AboveHorizon(xs: seq<Certificate>, lcr: Round, gcDepth: Round): seq<Certificate> {
    if xs == [] then []
    else (if lcr <= xs[0].round + gcDepth then [xs[0]] else []) + AboveHorizon(xs[1..], lcr, gcDepth)
  }

  /** Stable insertion: `x` goes before the first certificate that is not of a lower round. */
  function InsertByRound(x: Certificate, xs: seq<Certificate>): seq<Certificate> {
    if xs == [] || x.round <= xs[0].round then [x] + xs else [xs[0]] + InsertByRound(x, xs[1..])
  }

  function SortByRound(xs: seq<Certificate>): seq<Certificate> {
    if xs == [] then [] else InsertByRound(xs[0], SortByRound(xs[1..]))
  }

  ghost function OrderDag(s: State, leader: Certificate, gcDepth: Round): seq<Certificate> {
    SortByRound(AboveHorizon(Dfs(Visible(s), [leader], {}), s.lastCommittedRound, gcDepth))
  }

  // ----- One delivered certificate -----

  datatype Decision = Wait | Skip(round: Round) | Commit(leader: Certificate)

  const TWO64: nat := 0x1_0000_0000_0000_0000

  /** `wave * 0x9E3779B9 + wave.rotate_left(7)`, wrapping at 64 bits. */
  function FallbackIndex(wave: nat): nat {
    var w := wave % TWO64;
    (w * 0x9E37_79B9 % TWO64 + ((w * 128) % TWO64 + w / 0x200_0000_0000_0000)) % TWO64
  }

  function FallbackCandidates(cm: Committee, first: Round): seq<Key>
    requires cm.Valid()
  {
    Without(cm.keys, {cm.Leader(first), cm.Leader(first + 2)})
  }

  /** The fallback of a wave: drawn from the authorities that lead neither of its steady rounds. */
  function FallbackKey(cm: Committee, first: Round): Option<Key>
    requires cm.Valid()
  {
    var candidates := FallbackCandidates(cm, first);
    if candidates == [] then None
    else Some(candidates[FallbackIndex((if 2 <= first then first - 2 else 0) / 4) % |candidates|])
  }

  ghost function FallbackAt(cm: Committee, dag: set<Certificate>, first: Round): Option<Certificate>
    requires cm.Valid()
  {
    match FallbackKey(cm, first)
    case None => None
    case Some(k) => Lookup(dag, k, first)
  }

  /** The leader round that a certificate of round `round` can help to commit. Round 0 wraps to an odd round. */
  function LeaderRound(dynamic: bool, round: Round): Option<Round> {
    if dynamic then if round < 5 || round % 4 != 1 then None else Some(round - 3)
    else if round < 3 || round % 2 != 1 then None else Some(round - 1)
  }

  ghost function Support(cfg: Config, dag: set<Certificate>, round: Round, leader: Certificate): set<Certificate> {
    set x | x in dag && x.round == round && if cfg.dynamic then Linked(dag, x, leader) else Edge(x, leader)
  }

  /** What the engine decides after inserting a certificate of round `round`. */
  ghost function Decide(cfg: Config, s: State, round: Round): Decision
    requires cfg.committee.Valid()
  {
    var cm := cfg.committee;
    match LeaderRound(cfg.dynamic, round)
    case None => Wait
    case Some(r) =>
      if r <= s.lastCommittedRound then Wait
      else if cfg.dynamic && r in s.resolved then Wait
      else if cfg.dynamic && cm.Weight(Authors(AtRound(s.dag, round))) < cm.QuorumThreshold() then Wait
      else match if cfg.dynamic then FallbackAt(cm, s.dag, r) else LeaderAt(cm, s.dag, r)
        case None => if cfg.dynamic then Skip(r) else Wait
        case Some(leader) =>
          var stake := cm.Weight(Authors(Support(cfg, s.dag, round, leader)));
          if stake < (if cfg.dynamic then cm.QuorumThreshold() else cm.ValidityThreshold()) then
            if cfg.dynamic then Skip(r) else Wait
          else Commit(leader)
  }

  /** Commits leaders from the last of the list to the first, each with its sub-DAG. */
  ghost function CommitLeaders(s: State, leaders: seq<Certificate>, gcDepth: Round): (State, seq<Certificate>)
    decreases |leaders|
  {
    if leaders == [] then (s, [])
    else
      var xs := OrderDag(s, leaders[|leaders| - 1], gcDepth);
      var (s', out) := CommitLeaders(UpdateAll(s, xs, gcDepth), leaders[..|leaders| - 1], gcDepth);
      (s', xs + out)
  }

  function Reversed<T>(xs: seq<T>): seq<T> {
    if xs == [] then [] else Reversed(xs[1..]) + [xs[0]]
  }

  /** A node with its history: the leaders it committed and the certificates it output, in order; the waves it resolved. */
  datatype Node = Node(s: State, leaders: seq<Certificate>, out: seq<Certificate>, waves: seq<Round>)

  ghost function LeadersToCommit(cfg: Config, s: State, leader: Certificate): seq<Certificate>
    requires cfg.committee.Valid()
  {
    if cfg.dynamic then [leader] else OrderLeaders(cfg, s, leader)
  }

  ghost function Resolve(cfg: Config, s: State, r: Round): State {
    if cfg.dynamic then s.(resolved := s.resolved + {r}) else s
  }

  ghost function Deliver(cfg: Config, n: Node, c: Certificate): Node
    requires cfg.committee.Valid()
  {
    var s := Insert(n.s, c);
    match Decide(cfg, s, c.round)
    case Wait => n.(s := s)
    case Skip(r) => n.(s := Resolve(cfg, s, r), waves := n.waves + [r])
    case Commit(leader) =>
      var s1 := Resolve(cfg, s, leader.round);
      var ls := LeadersToCommit(cfg, s1, leader);
      var (s', out) := CommitLeaders(s1, ls, cfg.gcDepth);
      Node(s', n.leaders + Reversed(ls), n.out + out, if cfg.dynamic then n.waves + [leader.round] else n.waves)
  }

  ghost function InitialNode(cm: Committee): Node {
    Node(InitialState(cm), [], [], [])
  }

  /** The node after a sequence of deliveries. */
  ghost function Run(cfg: Config, log: seq<Certificate>): Node
    requires cfg.committee.Valid()
    decreases |log|
  {
    if log == [] then InitialNode(cfg.committee)
    else Deliver(cfg, Run(cfg, log[..|log| - 1]), log[|log| - 1])
  }

  ghost function Delivered(cm: Committee, log: seq<Certificate>): set<Certificate> {
    Genesis(cm) + Members(log)
  }

  /** Each delivered certificate comes after all its parents. `u` holds every certificate of the system. */
  ghost predicate Causal(cm: Committee, u: set<Certificate>, log: seq<Certificate>)
    decreases |log|
  {
    log == [] ||
    var c := log[|log| - 1];
    && Causal(cm, u, log[..|log| - 1])
    && c in u
    && forall y :: y in u && Edge(c, y) ==> y in Delivered(cm, log[..|log| - 1])
  }
}
