/** Orderings and list operations the pipeline takes from Python: `<` on
    strings and on (cik, year) tuples, `sorted`, and keep-first de-duplication
    through a `seen` set. */
module Ordering {

  /** Python's `<` on `str`: code-point lexicographic, a proper prefix first. */
  predicate StrLt(a: string, b: string)
    decreases |a|
  {
    if a == [] then b != []
    else if b == [] then false
    else if a[0] != b[0] then a[0] < b[0]
    else StrLt(a[1..], b[1..])
  }

  lemma {:induction false} StrLtIrreflexive(a: string)
    ensures !StrLt(a, a)
    decreases |a|
  {
    if a != [] { StrLtIrreflexive(a[1..]); }
  }

  lemma {:induction false} StrLtTransitive(a: string, b: string, c: string)
    requires StrLt(a, b) && StrLt(b, c)
    ensures StrLt(a, c)
    decreases |a|
  {
    if a != [] && b != [] && c != [] && a[0] == b[0] && b[0] == c[0] {
      StrLtTransitive(a[1..], b[1..], c[1..]);
    }
  }

  lemma {:induction false} StrLtTotal(a: string, b: string)
    requires a != b
    ensures StrLt(a, b) || StrLt(b, a)
    decreases |a|
  {
    if a != [] && b != [] && a[0] == b[0] {
      assert a == [a[0]] + a[1..] && b == [b[0]] + b[1..];
      StrLtTotal(a[1..], b[1..]);
    }
  }

  /** `lt` is a strict total order: irreflexive, transitive, and any two
      different values are comparable. */
  ghost predicate StrictTotalOrder<T(!new)>(lt: (T, T) -> bool) {
    (forall a :: !lt(a, a))
    && (forall a, b, c :: lt(a, b) && lt(b, c) ==> lt(a, c))
    && (forall a, b :: a != b ==> lt(a, b) || lt(b, a))
  }

  lemma StrLtIsStrictTotalOrder()
    ensures StrictTotalOrder(StrLt)
  {
    forall a ensures !StrLt(a, a) { StrLtIrreflexive(a); }
    forall a, b, c | StrLt(a, b) && StrLt(b, c) ensures StrLt(a, c) { StrLtTransitive(a, b, c); }
    forall a, b | a != b ensures StrLt(a, b) || StrLt(b, a) { StrLtTotal(a, b); }
  }

  /** Python's `<` on `(cik, year)` tuples: by cik first, then by year. */
  predicate KeyLt(x: (string, int), y: (string, int)) {
    StrLt(x.0, y.0) || (x.0 == y.0 && x.1 < y.1)
  }

  lemma KeyLtIsStrictTotalOrder()
    ensures StrictTotalOrder(KeyLt)
  {
    StrLtIsStrictTotalOrder();
  }

  /** Non-decreasing under `lt`: no later element is strictly below an earlier one. */
  ghost predicate Sorted<T>(xs: seq<T>, lt: (T, T) -> bool) {
    forall i, j :: 0 <= i < j < |xs| ==> !lt(xs[j], xs[i])
  }

  function Insert<T>(x: T, xs: seq<T>, lt: (T, T) -> bool): (r: seq<T>)
    ensures multiset(r) == multiset(xs) + multiset{x}
  {
    if xs == [] then [x]
    else if lt(xs[0], x) then
      assert xs == [xs[0]] + xs[1..];
      [xs[0]] + Insert(x, xs[1..], lt)
    else [x] + xs
  }

  /** Python's `sorted` for an order `lt` whose ties are equal values. */
  function Sort<T>(xs: seq<T>, lt: (T, T) -> bool): (r: seq<T>)
    ensures multiset(r) == multiset(xs) && |r| == |xs|
  {
    if xs == [] then []
    else
      assert xs == [xs[0]] + xs[1..];
      Insert(xs[0], Sort(xs[1..], lt), lt)
  }

  lemma {:induction false} InsertSorted<T(!new)>(x: T, xs: seq<T>, lt: (T, T) -> bool)
    requires StrictTotalOrder(lt) && Sorted(xs, lt)
    ensures Sorted(Insert(x, xs, lt), lt)
    decreases |xs|
  {
    if xs != [] && lt(xs[0], x) {
      InsertSorted(x, xs[1..], lt);
      var r := Insert(x, xs, lt);
      forall i, j | 0 <= i < j < |r| ensures !lt(r[j], r[i]) {
        if i == 0 {
          assert r[j] in multiset(xs[1..]) + multiset{x};
          if r[j] == x {
          } else {
            assert r[j] in xs[1..];
          }
        }
      }
    }
  }

  /** `Sort` returns an ordered permutation of its input. */
  lemma {:induction false} SortSorted<T(!new)>(xs: seq<T>, lt: (T, T) -> bool)
    requires StrictTotalOrder(lt)
    ensures Sorted(Sort(xs, lt), lt)
    decreases |xs|
  {
    if xs != [] {
      SortSorted(xs[1..], lt);
      InsertSorted(xs[0], Sort(xs[1..], lt), lt);
    }
  }

  /** Two ordered arrangements of the same non-empty multiset start alike. */
  lemma SortedSameHead<T(!new)>(a: seq<T>, b: seq<T>, lt: (T, T) -> bool)
    requires StrictTotalOrder(lt) && Sorted(a, lt) && Sorted(b, lt) && multiset(a) == multiset(b)
    requires a != []
    ensures b != [] && a[0] == b[0]
  {
    assert |b| == |multiset(b)| == |a|;
    assert a[0] in multiset(b);
    assert b[0] in multiset(a);
    var k :| 0 <= k < |b| && b[k] == a[0];
    var m :| 0 <= m < |a| && a[m] == b[0];
    assert !lt(b[k], b[0]) && !lt(a[m], a[0]);
  }

  lemma MultisetTail<T>(a: seq<T>)
    requires a != []
    ensures multiset(a[1..]) == multiset(a) - multiset{a[0]}
  {
    assert a == [a[0]] + a[1..];
  }

  /** Two ordered arrangements of the same multiset are the same sequence, so
      `Sort` agrees with Python's `sorted` whatever algorithm that uses. */
  lemma {:induction false} SortedUnique<T(!new)>(a: seq<T>, b: seq<T>, lt: (T, T) -> bool)
    requires StrictTotalOrder(lt) && Sorted(a, lt) && Sorted(b, lt) && multiset(a) == multiset(b)
    ensures a == b
    decreases |a|
  {
    if a != [] {
      SortedSameHead(a, b, lt);
      MultisetTail(a);
      MultisetTail(b);
      SortedUnique(a[1..], b[1..], lt);
      assert a == [a[0]] + a[1..] && b == [b[0]] + b[1..];
    } else {
      assert |b| == |multiset(b)| == 0;
    }
  }

  function SortStrings(xs: seq<string>): seq<string>
  {
    Sort(xs, StrLt)
  }

  /** `sorted(xs)` for a list of strings: ordered, a permutation, and the only
      such arrangement. */
  lemma SortStringsCorrect(xs: seq<string>, ys: seq<string>)
    ensures Sorted(SortStrings(xs), StrLt) && multiset(SortStrings(xs)) == multiset(xs)
    ensures Sorted(ys, StrLt) && multiset(ys) == multiset(xs) ==> ys == SortStrings(xs)
  {
    StrLtIsStrictTotalOrder();
    SortSorted(xs, StrLt);
    if Sorted(ys, StrLt) && multiset(ys) == multiset(xs) {
      SortedUnique(ys, SortStrings(xs), StrLt);
    }
  }

  /** In a list ordered by a strict total order without repeats, each element is
      strictly below every later one. */
  lemma SortedDistinctStrict<T(!new)>(xs: seq<T>, lt: (T, T) -> bool)
    requires StrictTotalOrder(lt) && Sorted(xs, lt)
    requires forall i, j :: 0 <= i < j < |xs| ==> xs[i] != xs[j]
    ensures forall i, j :: 0 <= i < j < |xs| ==> lt(xs[i], xs[j])
  {
  }

  /** A permutation of a list without repeats has no repeats. */
  lemma PermutationDistinct<T>(xs: seq<T>, ys: seq<T>)
    requires multiset(ys) == multiset(xs)
    requires forall i, j :: 0 <= i < j < |xs| ==> xs[i] != xs[j]
    ensures forall i, j :: 0 <= i < j < |ys| ==> ys[i] != ys[j]
  {
    forall i, j | 0 <= i < j < |ys| ensures ys[i] != ys[j] {
      if ys[i] == ys[j] {
        RepeatCountsTwice(ys, i, j);
        DistinctAtMostOnce(xs, ys[i]);
        assert false;
      }
    }
  }

  lemma RepeatCountsTwice<T>(xs: seq<T>, i: nat, j: nat)
    requires i < j < |xs| && xs[i] == xs[j]
    ensures multiset(xs)[xs[i]] >= 2
  {
    var x := xs[i];
    assert xs == xs[..j] + xs[j..];
    assert x in xs[..j] by { assert xs[..j][i] == x; }
    assert x in xs[j..] by { assert xs[j..][0] == x; }
    assert multiset(xs) == multiset(xs[..j]) + multiset(xs[j..]);
  }

  /** In a list without repeats every value occurs at most once. */
  lemma {:induction false} DistinctAtMostOnce<T>(xs: seq<T>, x: T)
    requires forall i, j :: 0 <= i < j < |xs| ==> xs[i] != xs[j]
    ensures multiset(xs)[x] <= 1
  {
    if xs != [] {
      var init := xs[..|xs| - 1];
      assert xs == init + [xs[|xs| - 1]];
      DistinctAtMostOnce(init, x);
      if x == xs[|xs| - 1] {
        assert x !in init by {
          forall i | 0 <= i < |init| ensures init[i] != x { assert init[i] == xs[i]; }
        }
      }
    }
  }

  function KeysOf<T, K>(xs: seq<T>, key: T -> K): set<K>
  {
    set i | 0 <= i < |xs| :: key(xs[i])
  }

  lemma KeysOfSnoc<T, K>(xs: seq<T>, x: T, key: T -> K)
    ensures KeysOf(xs + [x], key) == KeysOf(xs, key) + {key(x)}
  {
    var ys := xs + [x];
    forall k | k in KeysOf(ys, key) ensures k in KeysOf(xs, key) + {key(x)} {
      var i :| 0 <= i < |ys| && key(ys[i]) == k;
      if i < |xs| { assert ys[i] == xs[i]; }
    }
    forall k | k in KeysOf(xs, key) ensures k in KeysOf(ys, key) {
      var i :| 0 <= i < |xs| && key(xs[i]) == k;
      assert ys[i] == xs[i];
    }
    assert ys[|xs|] == x;
  }

  /** Keep the first element for each key, in input order: the `seen`-set loop. */
  function DedupeBy<T, K(==)>(xs: seq<T>, key: T -> K): (r: seq<T>)
    decreases |xs|
  {
    if xs == [] then []
    else
      var d := DedupeBy(xs[..|xs| - 1], key);
      if key(xs[|xs| - 1]) in KeysOf(d, key) then d else d + [xs[|xs| - 1]]
  }

  /** `b` contains the elements of `a` in the same order, possibly with others between. */
  predicate IsSubsequence<T(==)>(a: seq<T>, b: seq<T>)
    decreases |b|
  {
    if a == [] then true
    else if b == [] then false
    else if a[|a| - 1] == b[|b| - 1] then IsSubsequence(a[..|a| - 1], b[..|b| - 1])
    else IsSubsequence(a, b[..|b| - 1])
  }

  lemma {:induction false} SubsequenceSnoc<T>(a: seq<T>, b: seq<T>, x: T)
    requires IsSubsequence(a, b)
    ensures IsSubsequence(a, b + [x]) && IsSubsequence(a + [x], b + [x])
    decreases |b|, 1
  {
    assert (a + [x])[..|a|] == a && (b + [x])[..|b|] == b;
    if a != [] && a[|a| - 1] == x {
      SubsequenceDropLast(a, b);
    }
  }

  lemma {:induction false} SubsequenceDropLast<T>(a: seq<T>, b: seq<T>)
    requires a != [] && IsSubsequence(a, b)
    ensures IsSubsequence(a[..|a| - 1], b)
    decreases |b|, 0
  {
    var a', b' := a[..|a| - 1], b[..|b| - 1];
    assert b == b' + [b[|b| - 1]];
    if a[|a| - 1] != b[|b| - 1] {
      SubsequenceDropLast(a, b');
    }
    SubsequenceSnoc(a', b', b[|b| - 1]);
  }

  lemma {:induction false} SubsequenceLength<T>(a: seq<T>, b: seq<T>)
    requires IsSubsequence(a, b)
    ensures |a| <= |b|
    decreases |b|
  {
    if a != [] {
      if a[|a| - 1] == b[|b| - 1] {
        SubsequenceLength(a[..|a| - 1], b[..|b| - 1]);
      } else {
        SubsequenceLength(a, b[..|b| - 1]);
      }
    }
  }

  /** De-duplication keeps every key of the input. */
  lemma {:induction false} DedupeByKeys<T, K>(xs: seq<T>, key: T -> K)
    ensures KeysOf(DedupeBy(xs, key), key) == KeysOf(xs, key)
    decreases |xs|
  {
    if xs != [] {
      var p, x := xs[..|xs| - 1], xs[|xs| - 1];
      assert xs == p + [x];
      DedupeByKeys(p, key);
      KeysOfSnoc(p, x, key);
      KeysOfSnoc(DedupeBy(p, key), x, key);
    }
  }

  /** De-duplication keeps one element per key. */
  lemma {:induction false} DedupeByDistinct<T, K>(xs: seq<T>, key: T -> K)
    ensures forall i, j :: 0 <= i < j < |DedupeBy(xs, key)| ==> key(DedupeBy(xs, key)[i]) != key(DedupeBy(xs, key)[j])
    decreases |xs|
  {
    if xs != [] {
      var p, x := xs[..|xs| - 1], xs[|xs| - 1];
      DedupeByDistinct(p, key);
      var d := DedupeBy(p, key);
      assert DedupeBy(xs, key) == if key(x) in KeysOf(d, key) then d else d + [x];
      if key(x) !in KeysOf(d, key) {
        var r := d + [x];
        forall i, j | 0 <= i < j < |r| ensures key(r[i]) != key(r[j]) {
          if j == |d| {
            assert r[i] == d[i] && r[j] == x;
            assert key(d[i]) in KeysOf(d, key);
          } else {
            assert r[i] == d[i] && r[j] == d[j];
          }
        }
      }
    }
  }

  /** De-duplication keeps only input elements, in input order. */
  lemma {:induction false} DedupeBySubsequence<T, K>(xs: seq<T>, key: T -> K)
    ensures IsSubsequence(DedupeBy(xs, key), xs)
    decreases |xs|
  {
    if xs != [] {
      var p, x := xs[..|xs| - 1], xs[|xs| - 1];
      assert xs == p + [x];
      DedupeBySubsequence(p, key);
      SubsequenceSnoc(DedupeBy(p, key), p, x);
    }
  }

  /** The first element with each key survives de-duplication. */
  lemma {:induction false} DedupeByKeepsFirst<T, K>(xs: seq<T>, key: T -> K)
    ensures forall i :: 0 <= i < |xs| && (forall j :: 0 <= j < i ==> key(xs[j]) != key(xs[i])) ==> xs[i] in DedupeBy(xs, key)
    decreases |xs|
  {
    if xs != [] {
      var p, x := xs[..|xs| - 1], xs[|xs| - 1];
      DedupeByKeepsFirst(p, key);
      DedupeByKeys(p, key);
      var d := DedupeBy(p, key);
      var r := DedupeBy(xs, key);
      forall i | 0 <= i < |xs| && (forall j :: 0 <= j < i ==> key(xs[j]) != key(xs[i])) ensures xs[i] in r {
        if i < |p| {
          assert p[i] == xs[i];
          assert forall j :: 0 <= j < i ==> key(p[j]) == key(xs[j]);
          assert xs[i] in d;
        } else {
          forall j | 0 <= j < |p| ensures key(p[j]) != key(x) { assert p[j] == xs[j]; }
          assert key(x) !in KeysOf(p, key);
        }
      }
    }
  }
}
