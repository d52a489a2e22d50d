/** Python's `sorted` on tuples of strings: the lexicographic order, and a sort that depends on the contents alone. */
module Sorting {

  ghost predicate TotalOrder<T(!new)>(le: (T, T) -> bool) {
    && (forall x, y {:trigger le(x, y)} :: le(x, y) || le(y, x))
    && (forall x, y {:trigger le(x, y), le(y, x)} :: le(x, y) && le(y, x) ==> x == y)
    && (forall x, y, z {:trigger le(x, y), le(y, z)} :: le(x, y) && le(y, z) ==> le(x, z))
  }

  /** The first difference decides; a proper prefix comes first. */
  predicate LexLe<T(==)>(le: (T, T) -> bool, a: seq<T>, b: seq<T>) {
    if a == [] then true
    else if b == [] then false
    else if a[0] != b[0] then le(a[0], b[0])
    else LexLe(le, a[1..], b[1..])
  }

  function Lexicographic<T(==)>(le: (T, T) -> bool): (seq<T>, seq<T>) -> bool {
    (a, b) => LexLe(le, a, b)
  }

  lemma {:induction false} LexIsTotal<T(!new)>(le: (T, T) -> bool, a: seq<T>, b: seq<T>)
    requires TotalOrder(le)
    ensures LexLe(le, a, b) || LexLe(le, b, a)
    ensures LexLe(le, a, b) && LexLe(le, b, a) ==> a == b
  {
    if a != [] && b != [] {
      if a[0] == b[0] {
        LexIsTotal(le, a[1..], b[1..]);
        assert a == [a[0]] + a[1..] && b == [b[0]] + b[1..];
      } else {
        assert le(a[0], b[0]) || le(b[0], a[0]);
      }
    }
  }

  lemma {:induction false} LexIsTransitive<T(!new)>(le: (T, T) -> bool, a: seq<T>, b: seq<T>, c: seq<T>)
    requires TotalOrder(le) && LexLe(le, a, b) && LexLe(le, b, c)
    ensures LexLe(le, a, c)
  {
    if a != [] && a[0] == b[0] == c[0] {
      LexIsTransitive(le, a[1..], b[1..], c[1..]);
    }
  }

  lemma LexicographicIsTotalOrder<T(!new)>(le: (T, T) -> bool)
    requires TotalOrder(le)
    ensures TotalOrder(Lexicographic(le))
  {
    forall a, b
      ensures LexLe(le, a, b) || LexLe(le, b, a)
      ensures LexLe(le, a, b) && LexLe(le, b, a) ==> a == b
    {
      LexIsTotal(le, a, b);
    }
    forall a, b, c | LexLe(le, a, b) && LexLe(le, b, c)
      ensures LexLe(le, a, c)
    {
      LexIsTransitive(le, a, b, c);
    }
  }

  function Insert<T>(le: (T, T) -> bool, x: T, s: seq<T>): seq<T> {
    if s == [] then [x]
    else if le(x, s[0]) then [x] + s
    else [s[0]] + Insert(le, x, s[1..])
  }

  function Sorted<T>(le: (T, T) -> bool, s: seq<T>): seq<T> {
    if s == [] then [] else Insert(le, s[0], Sorted(le, s[1..]))
  }

  predicate IsSorted<T>(le: (T, T) -> bool, s: seq<T>) {
    forall i, j | 0 <= i < j < |s| :: le(s[i], s[j])
  }

  lemma {:induction false} InsertAdds<T(!new)>(le: (T, T) -> bool, x: T, s: seq<T>)
    ensures multiset(Insert(le, x, s)) == multiset(s) + multiset{x}
  {
    if s == [] {
    } else if le(x, s[0]) {
      assert multiset([x] + s) == multiset{x} + multiset(s);
    } else {
      InsertAdds(le, x, s[1..]);
      assert s == [s[0]] + s[1..];
      assert multiset([s[0]] + Insert(le, x, s[1..])) == multiset{s[0]} + multiset(Insert(le, x, s[1..]));
      assert multiset(s) == multiset{s[0]} + multiset(s[1..]);
    }
  }

  lemma PrependKeepsOrder<T(!new)>(le: (T, T) -> bool, x: T, s: seq<T>)
    requires IsSorted(le, s) && forall y | y in s :: le(x, y)
    ensures IsSorted(le, [x] + s)
  {
    var all := [x] + s;
    forall i, j | 0 <= i < j < |all|
      ensures le(all[i], all[j])
    {
      assert all[j] == s[j - 1] && s[j - 1] in s;
      if i > 0 {
        assert all[i] == s[i - 1];
      }
    }
  }

  lemma {:induction false} InsertKeepsOrder<T(!new)>(le: (T, T) -> bool, x: T, s: seq<T>)
    requires TotalOrder(le) && IsSorted(le, s)
    ensures IsSorted(le, Insert(le, x, s)) && multiset(Insert(le, x, s)) == multiset(s) + multiset{x}
  {
    InsertAdds(le, x, s);
    if s != [] {
      assert le(x, s[0]) || le(s[0], x);
      if le(x, s[0]) {
        assert forall y | y in s :: le(s[0], y) by {
          assert le(s[0], s[0]);
        }
        PrependKeepsOrder(le, x, s);
      } else {
        var tail := s[1..];
        InsertKeepsOrder(le, x, tail);
        forall y | y in Insert(le, x, tail)
          ensures le(s[0], y)
        {
          assert y in multiset(Insert(le, x, tail));
          assert y == x || y in tail;
        }
        PrependKeepsOrder(le, s[0], Insert(le, x, tail));
      }
    }
  }

  lemma {:induction false} SortedIsPermutation<T(!new)>(le: (T, T) -> bool, s: seq<T>)
    requires TotalOrder(le)
    ensures IsSorted(le, Sorted(le, s)) && multiset(Sorted(le, s)) == multiset(s)
  {
    if s != [] {
      SortedIsPermutation(le, s[1..]);
      InsertKeepsOrder(le, s[0], Sorted(le, s[1..]));
      assert s == [s[0]] + s[1..];
    }
  }

  /** Two sorted lists of the same contents are the same list. */
  lemma {:induction false} SortedIsUnique<T(!new)>(le: (T, T) -> bool, a: seq<T>, b: seq<T>)
    requires TotalOrder(le) && IsSorted(le, a) && IsSorted(le, b) && multiset(a) == multiset(b)
    ensures a == b
  {
    if a == [] {
      assert |multiset(b)| == 0;
    } else {
      assert a == [a[0]] + a[1..];
      assert a[0] in multiset(b);
      assert b == [b[0]] + b[1..];
      assert b[0] in multiset(a);
      assert le(a[0], a[0]) && le(b[0], b[0]);
      assert le(a[0], b[0]) && le(b[0], a[0]);
      assert multiset(a[1..]) == multiset(a) - multiset{a[0]} == multiset(b[1..]);
      SortedIsUnique(le, a[1..], b[1..]);
    }
  }

  /** Sorting forgets exactly the order. */
  lemma {:induction false} SortedIsCanonical<T(!new)>(le: (T, T) -> bool, a: seq<T>, b: seq<T>)
    requires TotalOrder(le)
    ensures Sorted(le, a) == Sorted(le, b) <==> multiset(a) == multiset(b)
  {
    SortedIsPermutation(le, a);
    SortedIsPermutation(le, b);
    if multiset(a) == multiset(b) {
      SortedIsUnique(le, Sorted(le, a), Sorted(le, b));
    }
  }

  // ----- Rows of strings

  type Row = seq<string>

  function CharLe(): (char, char) -> bool {
    (a, b) => a <= b
  }

  /** The order of Python tuples of strings. */
  function RowLe(): (Row, Row) -> bool {
    Lexicographic(Lexicographic(CharLe()))
  }

  lemma RowLeIsTotalOrder()
    ensures TotalOrder(RowLe())
  {
    LexicographicIsTotalOrder(CharLe());
    LexicographicIsTotalOrder(Lexicographic(CharLe()));
  }
}
