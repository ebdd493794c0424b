/** The authorities kept silent in a round: by counting ranks, as a primary does, and by sorting, as the client does. */
module Adversary {
  import opened Collections
  import opened Committees

  // The score hashes the authority, the round and a seed; nothing is assumed of it, not even that it is injective.
  type Score = Key -> nat

  /** Ascending score, ties broken by key. */
  predicate Before(score: Score, a: Key, b: Key) {
    score(a) < score(b) || (score(a) == score(b) && a < b)
  }

  /** How many of the candidates come before `k`. */
  function Rank(score: Score, candidates: seq<Key>, k: Key): nat {
    if candidates == [] then 0
    else (if Before(score, candidates[0], k) then 1 else 0) + Rank(score, candidates[1..], k)
  }

  predicate Selected(score: Score, authority: Key, authorities: seq<Key>, faults: nat, steady: Key) {
    var faults := if faults < |authorities| then faults else |authorities|;
    if faults == 0 then false
    else if authority == steady then true
    else if faults == 1 then false
    else Rank(score, Without(authorities, {steady}), authority) < faults - 1
  }

  // ----- Sorting by score -----

  function InsertBefore(score: Score, k: Key, ks: seq<Key>): seq<Key> {
    if ks == [] || Before(score, k, ks[0]) then [k] + ks else [ks[0]] + InsertBefore(score, k, ks[1..])
  }

  function SortBy(score: Score, ks: seq<Key>): seq<Key> {
    if ks == [] then [] else InsertBefore(score, ks[0], SortBy(score, ks[1..]))
  }

  ghost predicate InScoreOrder(score: Score, ks: seq<Key>) {
    forall i, j :: 0 <= i < j < |ks| ==> Before(score, ks[i], ks[j])
  }

  lemma {:induction false} InsertSorts(score: Score, k: Key, ks: seq<Key>)
    requires InScoreOrder(score, ks) && k !in ks
    ensures var r := InsertBefore(score, k, ks);
            InScoreOrder(score, r) && |r| == |ks| + 1 && forall x :: x in r <==> x == k || x in ks
    decreases |ks|
  {
    if ks != [] && !Before(score, k, ks[0]) {
      var rest := InsertBefore(score, k, ks[1..]);
      InsertSorts(score, k, ks[1..]);
      assert forall x :: x in ks <==> x == ks[0] || x in ks[1..];
      forall x | x in rest
        ensures Before(score, ks[0], x)
      {
        if x != k {
          var i :| 0 <= i < |ks[1..]| && ks[1..][i] == x;
          assert ks[i + 1] == x;
        }
      }
    } else if ks != [] {
      forall i | 0 <= i < |ks|
        ensures Before(score, k, ks[i])
      {
        assert i != 0 ==> Before(score, ks[0], ks[i]);
      }
    }
  }

  lemma {:induction false} SortSorts(score: Score, ks: seq<Key>)
    requires NoRepeats(ks)
    ensures var r := SortBy(score, ks);
            InScoreOrder(score, r) && |r| == |ks| && forall x :: x in r <==> x in ks
    decreases |ks|
  {
    if ks != [] {
      assert forall i :: 0 <= i < |ks[1..]| ==> ks[1..][i] == ks[i + 1];
      SortSorts(score, ks[1..]);
      assert forall x :: x in ks <==> x == ks[0] || x in ks[1..];
      InsertSorts(score, ks[0], SortBy(score, ks[1..]));
    }
  }

  lemma {:induction false} InsertRank(score: Score, k: Key, ks: seq<Key>, x: Key)
    ensures Rank(score, InsertBefore(score, k, ks), x) == (if Before(score, k, x) then 1 else 0) + Rank(score, ks, x)
    decreases |ks|
  {
    if ks == [] || Before(score, k, ks[0]) {
      assert ([k] + ks)[1..] == ks;
    } else {
      InsertRank(score, k, ks[1..], x);
      assert ([ks[0]] + InsertBefore(score, k, ks[1..]))[1..] == InsertBefore(score, k, ks[1..]);
    }
  }

  /** Sorting changes nobody's rank. */
  lemma {:induction false} SortRank(score: Score, ks: seq<Key>, x: Key)
    ensures Rank(score, SortBy(score, ks), x) == Rank(score, ks, x)
    decreases |ks|
  {
    if ks != [] {
      SortRank(score, ks[1..], x);
      InsertRank(score, ks[0], SortBy(score, ks[1..]), x);
    }
  }

  /** In a sorted sequence the rank is the position. */
  lemma {:induction false} RankIsPosition(score: Score, ks: seq<Key>, i: nat)
    requires InScoreOrder(score, ks) && i < |ks|
    ensures Rank(score, ks, ks[i]) == i
    decreases |ks|
  {
    assert forall j :: 0 <= j < |ks[1..]| ==> ks[1..][j] == ks[j + 1];
    if i == 0 {
      NobodyBefore(score, ks[1..], ks[0]);
    } else {
      RankIsPosition(score, ks[1..], i - 1);
    }
  }

  lemma {:induction false} NobodyBefore(score: Score, ks: seq<Key>, k: Key)
    requires forall x :: x in ks ==> Before(score, k, x)
    ensures Rank(score, ks, k) == 0
    decreases |ks|
  {
    if ks != [] {
      assert ks[0] in ks && forall x :: x in ks[1..] ==> x in ks;
      NobodyBefore(score, ks[1..], k);
    }
  }

  lemma OthersExact(ks: seq<Key>, steady: Key)
    requires NoRepeats(ks)
    ensures var r := Without(ks, {steady});
            && NoRepeats(r) && |r| == |ks| - (if steady in ks then 1 else 0)
            && forall x :: x in r <==> x in ks && x != steady
  {
    var r := Without(ks, {steady});
    WithoutExact(ks, {steady});
    MembersSize(ks);
    MembersSize(r);
    assert Members(r) == Members(ks) - {steady};
  }

  // ----- The two selections agree -----

  /** The client's selection: the steady leader and the first of the others in score order. */
  function Scheduled(score: Score, authorities: seq<Key>, faults: nat, steady: Key): seq<Key>
    requires faults <= |authorities|
  {
    if faults == 0 then []
    else
      var others := SortBy(score, Without(authorities, {steady}));
      [steady] + if faults - 1 <= |others| then others[..faults - 1] else others
  }

  /** An authority counts itself among the silent ones exactly if the client's schedule lists it. */
  lemma RankMeetsSorting(score: Score, authorities: seq<Key>, faults: nat, steady: Key, k: Key)
    requires NoRepeats(authorities) && k in authorities && steady in authorities
    ensures Selected(score, k, authorities, faults, steady)
            <==> k in Scheduled(score, authorities, if faults < |authorities| then faults else |authorities|, steady)
  {
    var f := if faults < |authorities| then faults else |authorities|;
    var candidates := Without(authorities, {steady});
    var others := SortBy(score, candidates);
    OthersExact(authorities, steady);
    SortSorts(score, candidates);
    if f != 0 && k != steady {
      var i :| 0 <= i < |others| && others[i] == k;
      SortRank(score, candidates, k);
      RankIsPosition(score, others, i);
      if k in others[..f - 1] {
        var j :| 0 <= j < f - 1 && others[j] == k;
        assert i < j || j < i ==> Before(score, k, k);
      }
      assert i < f - 1 ==> others[..f - 1][i] == k;
    }
  }

  ghost function Silent(score: Score, authorities: seq<Key>, faults: nat, steady: Key): set<Key> {
    set k | k in authorities && Selected(score, k, authorities, faults, steady)
  }

  /** In every round exactly `faults` authorities are silent, or all if there are fewer, the steady leader among them. */
  lemma ExactlyFaultsSilent(score: Score, authorities: seq<Key>, faults: nat, steady: Key)
    requires NoRepeats(authorities) && steady in authorities
    ensures |Silent(score, authorities, faults, steady)| == if faults < |authorities| then faults else |authorities|
    ensures 0 < faults ==> steady in Silent(score, authorities, faults, steady)
  {
    var f := if faults < |authorities| then faults else |authorities|;
    var chosen := Scheduled(score, authorities, f, steady);
    var others := SortBy(score, Without(authorities, {steady}));
    OthersExact(authorities, steady);
    SortSorts(score, Without(authorities, {steady}));
    assert NoRepeats(chosen) && |chosen| == f by {
      if f != 0 {
        assert chosen == [steady] + others[..f - 1];
        forall i, j | 0 <= i < j < |chosen|
          ensures chosen[i] != chosen[j]
        {
          assert chosen[j] == others[j - 1] && others[j - 1] in others;
          if i != 0 {
            assert chosen[i] == others[i - 1] && Before(score, others[i - 1], others[j - 1]);
          }
        }
      }
    }
    forall k
      ensures k in Members(chosen) <==> k in Silent(score, authorities, faults, steady)
    {
      if k in authorities {
        RankMeetsSorting(score, authorities, faults, steady, k);
      }
      if f != 0 && k in chosen && k != steady {
        assert k in others[..f - 1] && k in others;
      }
    }
    assert Members(chosen) == Silent(score, authorities, faults, steady);
    MembersSize(chosen);
  }

  lemma {:induction false} RankGrows(score: Score, candidates: seq<Key>, j: Key, k: Key)
    requires Before(score, j, k)
    ensures Rank(score, candidates, j) <= Rank(score, candidates, k)
    ensures j in candidates ==> Rank(score, candidates, j) < Rank(score, candidates, k)
    decreases |candidates|
  {
    if candidates != [] {
      RankGrows(score, candidates[1..], j, k);
    }
  }

  /**
   * The silent authorities beside the steady leader are those with the lowest scores: whoever is silent has a lower score than
   * whoever is not, or the same score and a lower key. Together with `ExactlyFaultsSilent` this leaves no choice.
   */
  lemma LowestScoresSilent(score: Score, authorities: seq<Key>, faults: nat, steady: Key, k: Key, j: Key)
    requires NoRepeats(authorities) && steady in authorities && k in authorities && j in authorities && k != steady
    requires k in Silent(score, authorities, faults, steady) && j !in Silent(score, authorities, faults, steady)
    ensures score(k) < score(j) || (score(k) == score(j) && k < j)
  {
    var candidates := Without(authorities, {steady});
    OthersExact(authorities, steady);
    if j != steady && !Before(score, k, j) {
      assert Before(score, j, k);
      RankGrows(score, candidates, j, k);
    }
  }

  // ----- The client's schedule -----

  function ScoreIn(score: (Key, nat) -> nat, round: nat): Score {
    k => score(k, round)
  }

  function ByKey(): Score {
    k => 0
  }

  /** Sorted sequences with the same members are equal. */
  lemma {:induction false} OneOrder(score: Score, a: seq<Key>, b: seq<Key>)
    requires InScoreOrder(score, a) && InScoreOrder(score, b) && forall x :: x in a <==> x in b
    ensures a == b
    decreases |a|
  {
    if a == [] {
      assert forall i :: 0 <= i < |b| ==> b[i] in b;
    } else {
      assert a[0] in a;
      assert b != [] && b[0] in b;
      var i :| 0 <= i < |a| && a[i] == b[0];
      var j :| 0 <= j < |b| && b[j] == a[0];
      assert a[0] == b[0] by {
        assert 0 < i ==> Before(score, a[0], b[0]);
        assert 0 < j ==> Before(score, b[0], a[0]);
      }
      TailMembers(score, a);
      TailMembers(score, b);
      OneOrder(score, a[1..], b[1..]);
    }
  }

  lemma TailMembers(score: Score, a: seq<Key>)
    requires InScoreOrder(score, a) && a != []
    ensures InScoreOrder(score, a[1..]) && forall x :: x in a[1..] <==> x in a && x != a[0]
  {
    forall x | x in a && x != a[0]
      ensures x in a[1..]
    {
      var i :| 0 <= i < |a| && a[i] == x;
      assert a[1..][i - 1] == x;
    }
    forall x | x in a[1..]
      ensures x in a && x != a[0]
    {
      var i :| 0 <= i < |a[1..]| && a[1..][i] == x;
      assert Before(score, a[0], a[i + 1]);
    }
  }

  /** Whether the client of `k` pauses in a round: what the primary `k` works out by counting ranks. */
  predicate PausesAt(cm: Committee, score: (Key, nat) -> nat, faults: nat, pause: bool, k: Key, round: nat)
    requires cm.Valid()
  {
    pause && Selected(ScoreIn(score, round), k, cm.keys, faults, cm.Leader(round))
  }

  /** A client pauses exactly while its authority is silent, and never if it is told to send on. */
  lemma PausesExactly(cm: Committee, score: (Key, nat) -> nat, faults: nat, pause: bool, k: Key, round: nat)
    requires cm.Valid() && k in cm.keys
    ensures PausesAt(cm, score, faults, pause, k, round) <==>
            pause && k in Silent((x: Key) => score(x, round), cm.keys, faults, cm.keys[round % |cm.keys|])
  {
    SelectedAlike(ScoreIn(score, round), (x: Key) => score(x, round), k, cm.keys, faults, cm.Leader(round));
  }

  lemma {:induction false} RankAlike(a: Score, b: Score, candidates: seq<Key>, k: Key)
    requires forall x :: a(x) == b(x)
    ensures Rank(a, candidates, k) == Rank(b, candidates, k)
    decreases |candidates|
  {
    if candidates != [] {
      RankAlike(a, b, candidates[1..], k);
    }
  }

  lemma SelectedAlike(a: Score, b: Score, k: Key, authorities: seq<Key>, faults: nat, steady: Key)
    requires forall x :: a(x) == b(x)
    ensures Selected(a, k, authorities, faults, steady) <==> Selected(b, k, authorities, faults, steady)
  {
    RankAlike(a, b, Without(authorities, {steady}), k);
  }

  /** Entry `i` of a schedule is for round `i + 1`. */
  ghost predicate ScheduleOf(cm: Committee, score: (Key, nat) -> nat, faults: nat, pause: bool, k: Key, bits: seq<bool>)
    requires cm.Valid()
  {
    forall i :: 0 <= i < |bits| ==> bits[i] == PausesAt(cm, score, faults, pause, k, i + 1)
  }

  lemma EmptySchedule(cm: Committee, score: (Key, nat) -> nat, faults: nat, pause: bool, k: Key)
    requires cm.Valid()
    ensures ScheduleOf(cm, score, faults, pause, k, [])
  {
  }

  lemma ScheduleExtends(cm: Committee, score: (Key, nat) -> nat, faults: nat, pause: bool, k: Key, bits: seq<bool>, bit: bool)
    requires cm.Valid() && ScheduleOf(cm, score, faults, pause, k, bits)
    requires bit == PausesAt(cm, score, faults, pause, k, |bits| + 1)
    ensures ScheduleOf(cm, score, faults, pause, k, bits + [bit])
  {
    hide PausesAt;
  }

  /** The schedules built by sorting in every round are those the primaries follow by counting ranks. */
  method BuildClientSchedules(cm: Committee, names: seq<Key>, score: (Key, nat) -> nat, faults: int, slots: nat, pause: bool)
    returns (schedules: seq<seq<bool>>)
    requires cm.Valid() && NoRepeats(names) && Members(names) == Members(cm.keys)
    ensures |schedules| == |names|
    ensures forall i :: 0 <= i < |names| ==>
              |schedules[i]| == slots
              && ScheduleOf(cm, score, if faults < 0 then 0 else faults, pause, names[i], schedules[i])
  {
    hide Selected, ScheduleOf, Rank, SortBy;
    var ordered := SortBy(ByKey(), names);
    SortSorts(ByKey(), names);
    assert forall k :: k in ordered <==> k in cm.keys by {
      assert forall k :: k in names <==> k in Members(names);
      assert forall k :: k in cm.keys <==> k in Members(cm.keys);
    }
    OneOrder(ByKey(), ordered, cm.keys);
    assert |ordered| == |names|;
    var given: nat := if faults < 0 then 0 else faults;
    var silent: nat := if given < |ordered| then given else |ordered|;
    schedules := seq(|names|, i => []);
    forall i | 0 <= i < |names|
      ensures ScheduleOf(cm, score, given, pause, names[i], [])
    {
      EmptySchedule(cm, score, given, pause, names[i]);
    }
    var round := 1;
    while round <= slots
      invariant 1 <= round <= slots + 1
      invariant |schedules| == |names|
      invariant forall i :: 0 <= i < |names| ==>
                  |schedules[i]| == round - 1 && ScheduleOf(cm, score, given, pause, names[i], schedules[i])
    {
      var steady := ordered[round % |ordered|];
      assert steady == cm.Leader(round);
      var selected := Scheduled(ScoreIn(score, round), ordered, silent, steady);
      var i := 0;
      while i < |names|
        invariant 0 <= i <= |names| && |schedules| == |names|
        invariant forall j :: 0 <= j < i ==>
                    |schedules[j]| == round && ScheduleOf(cm, score, given, pause, names[j], schedules[j])
        invariant forall j :: i <= j < |names| ==>
                    |schedules[j]| == round - 1 && ScheduleOf(cm, score, given, pause, names[j], schedules[j])
      {
        RankMeetsSorting(ScoreIn(score, round), ordered, given, steady, names[i]);
        var bit := pause && names[i] in selected;
        ScheduleExtends(cm, score, given, pause, names[i], schedules[i], bit);
        schedules := schedules[i := schedules[i] + [bit]];
        i := i + 1;
      }
      round := round + 1;
    }
  }
}
