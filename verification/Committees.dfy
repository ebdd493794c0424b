/** The committee: who may vote, with how much stake, and how many votes are enough. */
module Committees {

  // Public keys are compared and sorted but never computed with.
  type Key = nat

  datatype Option<+T> = None | Some(value: T)

  /**
   * `keys` lists the authorities in ascending order, as the ordered map of the configuration does; `workers` gives the
   * identifiers of each authority's workers.
   */
  datatype Committee = Committee(keys: seq<Key>, stakes: map<Key, nat>, workers: map<Key, set<nat>>) {

    ghost predicate Valid() {
      && 0 < |keys|
      && (forall i, j :: 0 <= i < j < |keys| ==> keys[i] < keys[j])
      && stakes.Keys == set k | k in keys
    }

    function Stake(name: Key): nat {
      if name in stakes then stakes[name] else 0
    }

    predicate HasWorker(name: Key, id: nat) {
      name in workers && id in workers[name]
    }

    /** The stake held together by the authorities of a set. */
    function Weight(names: set<Key>): nat {
      WeightOf(keys, names)
    }

    function WeightOf(ks: seq<Key>, names: set<Key>): nat {
      if ks == [] then 0
      else (if ks[0] in names then Stake(ks[0]) else 0) + WeightOf(ks[1..], names)
    }

    function TotalOf(ks: seq<Key>): nat {
      if ks == [] then 0 else Stake(ks[0]) + TotalOf(ks[1..])
    }

    function Total(): nat {
      TotalOf(keys)
    }

    function QuorumThreshold(): nat {
      2 * Total() / 3 + 1
    }

    function ValidityThreshold(): nat {
      (Total() + 2) / 3
    }

    function Leader(seed: nat): Key
      requires Valid()
    {
      keys[seed % |keys|]
    }

    lemma {:induction false} WeightOfUnion(ks: seq<Key>, a: set<Key>, b: set<Key>)
      ensures WeightOf(ks, a) + WeightOf(ks, b) == WeightOf(ks, a + b) + WeightOf(ks, a * b)
    {
      if ks != [] {
        WeightOfUnion(ks[1..], a, b);
      }
    }

    lemma {:induction false} WeightOfBounds(ks: seq<Key>, a: set<Key>, b: set<Key>)
      ensures WeightOf(ks, a) <= TotalOf(ks)
      ensures a <= b ==> WeightOf(ks, a) <= WeightOf(ks, b)
      ensures (forall k :: k in ks ==> k !in a) ==> WeightOf(ks, a) == 0
    {
      if ks != [] {
        assert ks[0] in ks;
        assert forall k :: k in ks[1..] ==> k in ks;
        WeightOfBounds(ks[1..], a, b);
      }
    }

    lemma OfTwo(a: Key, b: Key, names: set<Key>)
      requires a < b && keys == [a, b] && stakes.Keys == {a, b}
      ensures Valid() && Total() == stakes[a] + stakes[b]
      ensures Weight(names) == (if a in names then stakes[a] else 0) + (if b in names then stakes[b] else 0)
    {
      assert keys[0] == a && keys[1] == b && keys[1..] == [b] && [b][1..] == [];
      assert WeightOf([b], names) == if b in names then stakes[b] else 0;
      assert TotalOf([b]) == stakes[b];
    }

    lemma OfThree(a: Key, b: Key, c: Key, names: set<Key>)
      requires a < b < c && keys == [a, b, c] && stakes.Keys == {a, b, c}
      ensures Valid() && Total() == stakes[a] + stakes[b] + stakes[c]
      ensures Weight(names) == (if a in names then stakes[a] else 0) + (if b in names then stakes[b] else 0)
                               + (if c in names then stakes[c] else 0)
    {
      assert keys[0] == a && keys[1] == b && keys[2] == c;
      assert keys[1..] == [b, c] && [b, c][1..] == [c] && [c][1..] == [];
      assert WeightOf([c], names) == if c in names then stakes[c] else 0;
      assert WeightOf([b, c], names) == (if b in names then stakes[b] else 0) + WeightOf([c], names);
      assert [c][0] == c && [b, c][0] == b;
      assert TotalOf([c]) == stakes[c];
      assert TotalOf([b, c]) == stakes[b] + TotalOf([c]);
    }

    /** Weight is additive: shared authorities are counted on both sides. */
    lemma WeightUnion(a: set<Key>, b: set<Key>)
      ensures Weight(a) + Weight(b) == Weight(a + b) + Weight(a * b)
    {
      WeightOfUnion(keys, a, b);
    }

    lemma WeightMonotone(a: set<Key>, b: set<Key>)
      requires a <= b
      ensures Weight(a) <= Weight(b) <= Total()
    {
      WeightOfBounds(keys, a, b);
      WeightOfBounds(keys, b, b);
    }

    lemma WeightEmpty(a: set<Key>)
      requires forall k :: k in keys ==> k !in a
      ensures Weight(a) == 0
    {
      WeightOfBounds(keys, a, a);
    }

    lemma {:induction false} WeightOfSingle(ks: seq<Key>, k: Key)
      requires forall i, j :: 0 <= i < j < |ks| ==> ks[i] < ks[j]
      ensures WeightOf(ks, {k}) == if k in ks then Stake(k) else 0
    {
      if ks != [] {
        WeightOfSingle(ks[1..], k);
      }
    }

    lemma WeightSingle(k: Key)
      requires Valid()
      ensures Weight({k}) == Stake(k)
    {
      WeightOfSingle(keys, k);
      assert k in stakes.Keys <==> k in keys;
    }

    /** Counting one more authority adds exactly its stake. */
    lemma WeightInsert(a: set<Key>, k: Key)
      requires Valid() && k !in a
      ensures Weight(a + {k}) == Weight(a) + Stake(k)
    {
      WeightUnion(a, {k});
      WeightSingle(k);
      assert a * {k} == {};
      WeightEmpty({});
    }

    lemma CommonMember(a: set<Key>, b: set<Key>) returns (k: Key)
      requires Weight(a) + Weight(b) > Total()
      ensures k in a && k in b && k in keys
    {
      WeightUnion(a, b);
      WeightMonotone(a + b, a + b);
      if forall x :: x in keys ==> x !in a * b {
        WeightEmpty(a * b);
      }
      k :| k in keys && k in a * b;
    }

    /** 2f+1 and f+1 always meet: whatever rounding the two divisions do. */
    lemma QuorumMeetsValidity(a: set<Key>, b: set<Key>) returns (k: Key)
      requires Weight(a) >= QuorumThreshold() && Weight(b) >= ValidityThreshold()
      ensures k in a && k in b && k in keys
    {
      k := CommonMember(a, b);
    }

    /** Two quorums share an authority outside any set holding less than a third of the stake. */
    lemma QuorumsShareHonest(a: set<Key>, b: set<Key>, faulty: set<Key>) returns (k: Key)
      requires Weight(a) >= QuorumThreshold() && Weight(b) >= QuorumThreshold()
      requires 3 * Weight(faulty) < Total()
      ensures k in a && k in b && k !in faulty && k in keys
    {
      WeightUnion(a, b);
      WeightMonotone(a + b, a + b);
      WeightUnion(a * b, faulty);
      if forall x :: x in keys ==> x !in a * b - faulty {
        WeightUnion(a * b - faulty, faulty);
        WeightEmpty(a * b - faulty);
        WeightMonotone(a * b, a * b - faulty + faulty);
      }
      k :| k in keys && k in a * b - faulty;
    }
  }
}
