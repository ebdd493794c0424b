/** What several components say about sequences. */
module Collections {

  ghost predicate NoRepeats<T>(xs: seq<T>) {
    forall i, j :: 0 <= i < j < |xs| ==> xs[i] != xs[j]
  }

  ghost function Members<T>(xs: seq<T>): set<T> {
    set x | x in xs
  }

  lemma {:induction false} MembersSize<T>(xs: seq<T>)
    requires NoRepeats(xs)
    ensures |Members(xs)| == |xs|
    decreases |xs|
  {
    if xs != [] {
      assert forall i :: 0 <= i < |xs[1..]| ==> xs[1..][i] == xs[i + 1];
      MembersSize(xs[1..]);
      assert Members(xs) == Members(xs[1..]) + {xs[0]};
    }
  }

  function Without<T(==)>(xs: seq<T>, removed: set<T>): seq<T> {
    if xs == [] then [] else (if xs[0] in removed then [] else [xs[0]]) + Without(xs[1..], removed)
  }

  lemma {:induction false} WithoutExact<T>(xs: seq<T>, removed: set<T>)
    ensures forall x :: x in Without(xs, removed) <==> x in xs && x !in removed
    ensures NoRepeats(xs) ==> NoRepeats(Without(xs, removed))
    decreases |xs|
  {
    if xs != [] {
      var rest := Without(xs[1..], removed);
      assert forall x :: x in xs <==> x == xs[0] || x in xs[1..];
      assert forall i :: 0 <= i < |xs[1..]| ==> xs[1..][i] == xs[i + 1];
      WithoutExact(xs[1..], removed);
      assert forall i :: 0 <= i < |rest| ==> rest[i] in rest;
    }
  }
}
