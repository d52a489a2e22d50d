/** Facts about lists shared across the project: dictionaries built by a key, distinct keys, taking one element out. */
module Indexing {

  ghost predicate Injective<A(!new), B>(f: A -> B) {
    forall x, y {:trigger f(x), f(y)} :: f(x) == f(y) ==> x == y
  }

  /** A dictionary built from a list: a later entry replaces an earlier one with its key. */
  function Indexed<K(==), T>(key: T -> K, s: seq<T>): map<K, T> {
    if s == [] then map[]
    else Indexed(key, s[..|s| - 1])[key(s[|s| - 1]) := s[|s| - 1]]
  }

  ghost predicate Distinct<K, T>(key: T -> K, s: seq<T>) {
    forall i, j | 0 <= i < j < |s| :: key(s[i]) != key(s[j])
  }

  ghost predicate Holds<K, T>(key: T -> K, s: seq<T>, k: K) {
    exists i :: 0 <= i < |s| && key(s[i]) == k
  }

  /** The dictionary has the keys of the list, each with an entry of the list that has this key. */
  lemma {:induction false} IndexedHasKeys<K, T>(key: T -> K, s: seq<T>, k: K)
    ensures k in Indexed(key, s) <==> Holds(key, s, k)
    ensures k in Indexed(key, s) ==> Indexed(key, s)[k] in s && key(Indexed(key, s)[k]) == k
  {
    if s != [] {
      var n := |s| - 1;
      IndexedHasKeys(key, s[..n], k);
      if Holds(key, s, k) {
        var i :| 0 <= i < |s| && key(s[i]) == k;
        if i < n {
          assert s[..n][i] == s[i];
        }
      }
      if Holds(key, s[..n], k) {
        var i :| 0 <= i < n && key(s[..n][i]) == k;
        assert key(s[i]) == k;
      }
      assert key(s[n]) == k ==> Holds(key, s, k);
    }
  }

  lemma DistinctSplits<K, T>(key: T -> K, s: seq<T>)
    requires s != []
    ensures Distinct(key, s) <==> Distinct(key, s[..|s| - 1]) && !Holds(key, s[..|s| - 1], key(s[|s| - 1]))
  {
    var n := |s| - 1;
    assert forall i | 0 <= i < n :: s[..n][i] == s[i];
  }

  /** Comparing the sizes of a list and of its dictionary is a test for distinct keys. */
  lemma {:induction false} SizeTestsDistinctness<K, T>(key: T -> K, s: seq<T>)
    ensures |Indexed(key, s)| <= |s|
    ensures |Indexed(key, s)| == |s| <==> Distinct(key, s)
  {
    if s != [] {
      var n := |s| - 1;
      var before, k := Indexed(key, s[..n]), key(s[n]);
      SizeTestsDistinctness(key, s[..n]);
      IndexedHasKeys(key, s[..n], k);
      DistinctSplits(key, s);
      assert before[k := s[n]].Keys == before.Keys + {k};
      assert |before[k := s[n]].Keys| == |before.Keys| + if k in before then 0 else 1;
    }
  }

  /** With distinct keys no entry is replaced. */
  lemma {:induction false} DistinctAreKept<K, T>(key: T -> K, s: seq<T>, i: nat)
    requires Distinct(key, s) && i < |s|
    ensures key(s[i]) in Indexed(key, s) && Indexed(key, s)[key(s[i])] == s[i]
  {
    var n := |s| - 1;
    if i < n {
      DistinctSplits(key, s);
      DistinctAreKept(key, s[..n], i);
      assert s[..n][i] == s[i];
    }
  }

  /** Taking one element out of the middle of a list takes it out of the contents. */
  lemma RemoveOne<T(!new)>(a: seq<T>, x: T, b: seq<T>, rest: multiset<T>)
    requires multiset(a + [x] + b) == rest + multiset{x}
    ensures multiset(a + b) == rest
  {
    assert multiset(a + [x] + b) == multiset(a) + multiset{x} + multiset(b);
    assert multiset(a + b) == multiset(a) + multiset(b);
    assert rest + multiset{x} == multiset(a + b) + multiset{x};
    forall y
      ensures rest[y] == multiset(a + b)[y]
    {
      assert (rest + multiset{x})[y] == (multiset(a + b) + multiset{x})[y];
    }
  }
}
