/** Tallies kept in a dictionary, `d[k] = d.get(k, 0) + 1`, and the sum of
    their values. */
module Counting {

  /** `m[k] = m.get(k, 0) + 1`. */
  function Bump<K>(m: map<K, nat>, k: K): map<K, nat>
  {
    m[k := if k in m then m[k] + 1 else 1]
  }

  /** `sum(m[k] for k in keys)`. */
  ghost function SumValues<K>(keys: set<K>, m: map<K, nat>): nat
    requires keys <= m.Keys
    decreases keys
  {
    if keys == {} then 0
    else
      var k :| k in keys;
      m[k] + SumValues(keys - {k}, m)
  }

  /** `sum(m.values())`. */
  ghost function Total<K>(m: map<K, nat>): nat
  {
    SumValues(m.Keys, m)
  }

  /** Any key can be taken out of the sum first. */
  lemma {:induction false} SumValuesRemove<K>(keys: set<K>, m: map<K, nat>, x: K)
    requires keys <= m.Keys && x in keys
    ensures SumValues(keys, m) == m[x] + SumValues(keys - {x}, m)
    decreases keys
  {
    var k :| k in keys && SumValues(keys, m) == m[k] + SumValues(keys - {k}, m);
    if k != x {
      SumValuesRemove(keys - {k}, m, x);
      SumValuesRemove(keys - {x}, m, k);
      assert keys - {k} - {x} == keys - {x} - {k};
    }
  }

  /** Two maps that agree on the keys summed have the same sum. */
  lemma {:induction false} SumValuesSame<K>(keys: set<K>, m1: map<K, nat>, m2: map<K, nat>)
    requires keys <= m1.Keys && keys <= m2.Keys
    requires forall k :: k in keys ==> m1[k] == m2[k]
    ensures SumValues(keys, m1) == SumValues(keys, m2)
    decreases keys
  {
    if keys != {} {
      var k :| k in keys;
      SumValuesRemove(keys, m1, k);
      SumValuesRemove(keys, m2, k);
      SumValuesSame(keys - {k}, m1, m2);
    }
  }

  /** One more item adds exactly one to the sum of the tallies. */
  lemma BumpTotal<K>(m: map<K, nat>, k: K)
    ensures Total(Bump(m, k)) == Total(m) + 1
  {
    var b := Bump(m, k);
    assert b.Keys == m.Keys + {k};
    SumValuesRemove(b.Keys, b, k);
    SumValuesSame(b.Keys - {k}, b, m);
    if k in m {
      SumValuesRemove(m.Keys, m, k);
      assert b.Keys - {k} == m.Keys - {k};
    } else {
      assert b.Keys - {k} == m.Keys;
    }
  }

  /** Tallying a sequence of keys. */
  function Tally<K>(ks: seq<K>): map<K, nat>
  {
    if ks == [] then map[] else Bump(Tally(ks[..|ks| - 1]), ks[|ks| - 1])
  }

  /** How often `k` occurs in `ks`. */
  function Occurrences<K(==)>(ks: seq<K>, k: K): nat
  {
    if ks == [] then 0 else Occurrences(ks[..|ks| - 1], k) + if ks[|ks| - 1] == k then 1 else 0
  }

  /** A tally holds exactly the keys that occur, each with its count. */
  lemma {:induction false} TallyCounts<K>(ks: seq<K>, k: K)
    ensures k in Tally(ks) <==> Occurrences(ks, k) > 0
    ensures k in Tally(ks) ==> Tally(ks)[k] == Occurrences(ks, k)
  {
    if ks != [] {
      TallyCounts(ks[..|ks| - 1], k);
    }
  }

  /** The tallies add up to the number of items. */
  lemma {:induction false} TallyTotal<K>(ks: seq<K>)
    ensures Total(Tally(ks)) == |ks|
  {
    if ks == [] {
      assert Tally(ks).Keys == {};
    } else {
      TallyTotal(ks[..|ks| - 1]);
      BumpTotal(Tally(ks[..|ks| - 1]), ks[|ks| - 1]);
    }
  }
}
