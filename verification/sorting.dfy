/** Sorting under a total order. JavaScript's `Array.prototype.sort` leaves
    its algorithm to the engine, but under a total order the sorted
    permutation of a list is unique (`SortedUnique`), so insertion sort
    models any conforming engine. */
module Sorting {

  /** `le` is a total order: antisymmetric, transitive and total. */
  ghost predicate TotalOrder<T(!new)>(le: (T, T) -> bool)
  {
    && (forall x, y :: le(x, y) && le(y, x) ==> x == y)
    && (forall x, y, z :: le(x, y) && le(y, z) ==> le(x, z))
    && (forall x, y :: le(x, y) || le(y, x))
  }

  predicate SortedBy<T>(s: seq<T>, le: (T, T) -> bool)
  {
    forall i, j :: 0 <= i < j < |s| ==> le(s[i], s[j])
  }

  /** Inserts `x` before the first element it is not above. */
  function Insert<T(!new)>(x: T, s: seq<T>, le: (T, T) -> bool): (r: seq<T>)
    ensures multiset(r) == multiset(s) + multiset{x}
    ensures forall y :: y in r ==> y == x || y in s
    ensures TotalOrder(le) && SortedBy(s, le) ==> SortedBy(r, le)
    decreases |s|
  {
    if s == [] then [x]
    else if le(x, s[0]) then
      InsertFront(x, s, le);
      [x] + s
    else
      var t := Insert(x, s[1..], le);
      assert s == [s[0]] + s[1..];
      InsertBehind(x, s, t, le);
      [s[0]] + t
  }

  /** An element below every element of a sorted list can go in front. */
  lemma PrependSorted<T>(x: T, s: seq<T>, le: (T, T) -> bool)
    requires SortedBy(s, le)
    requires forall y :: y in s ==> le(x, y)
    ensures SortedBy([x] + s, le)
  {
    forall i, j | 0 <= i < j < |[x] + s| ensures le(([x] + s)[i], ([x] + s)[j]) {
      assert ([x] + s)[j] == s[j - 1];
      if i == 0 {
        assert s[j - 1] in s;
      } else {
        assert ([x] + s)[i] == s[i - 1];
      }
    }
  }

  lemma InsertFront<T(!new)>(x: T, s: seq<T>, le: (T, T) -> bool)
    requires s != [] && le(x, s[0])
    ensures TotalOrder(le) && SortedBy(s, le) ==> SortedBy([x] + s, le)
  {
    if TotalOrder(le) && SortedBy(s, le) {
      forall y | y in s ensures le(x, y) {
        var k :| 0 <= k < |s| && s[k] == y;
        if k > 0 {
          assert le(s[0], s[k]);
        }
      }
      PrependSorted(x, s, le);
    }
  }

  lemma InsertBehind<T(!new)>(x: T, s: seq<T>, t: seq<T>, le: (T, T) -> bool)
    requires s != [] && !le(x, s[0])
    requires forall y :: y in t ==> y == x || y in s[1..]
    requires TotalOrder(le) && SortedBy(s[1..], le) ==> SortedBy(t, le)
    ensures TotalOrder(le) && SortedBy(s, le) ==> SortedBy([s[0]] + t, le)
  {
    if TotalOrder(le) && SortedBy(s, le) {
      forall i, j | 0 <= i < j < |s[1..]| ensures le(s[1..][i], s[1..][j]) {
        assert s[1..][i] == s[i + 1] && s[1..][j] == s[j + 1];
      }
      assert le(s[0], x);
      forall y | y in t ensures le(s[0], y) {
        if y != x {
          var k :| 0 <= k < |s[1..]| && s[1..][k] == y;
          assert s[1..][k] == s[k + 1];
          assert le(s[0], s[k + 1]);
        }
      }
      PrependSorted(s[0], t, le);
    }
  }

  /** The sorted permutation of `s`. */
  function Sort<T(!new)>(s: seq<T>, le: (T, T) -> bool): (r: seq<T>)
    ensures multiset(r) == multiset(s)
    ensures TotalOrder(le) ==> SortedBy(r, le)
    decreases |s|
  {
    if s == [] then []
    else
      assert s == [s[0]] + s[1..];
      Insert(s[0], Sort(s[1..], le), le)
  }

  lemma TailMultiset<T>(a: seq<T>, b: seq<T>)
    requires |a| > 0 && |b| > 0 && a[0] == b[0]
    requires multiset(a) == multiset(b)
    ensures multiset(a[1..]) == multiset(b[1..])
  {
    assert a == [a[0]] + a[1..] && b == [b[0]] + b[1..];
    assert multiset(a[1..]) == multiset(a) - multiset{a[0]};
    assert multiset(b[1..]) == multiset(b) - multiset{b[0]};
  }

  /** Under a total order, two sorted lists with the same elements are equal. */
  lemma {:induction false} SortedUnique<T(!new)>(a: seq<T>, b: seq<T>, le: (T, T) -> bool)
    requires TotalOrder(le)
    requires SortedBy(a, le) && SortedBy(b, le)
    requires multiset(a) == multiset(b)
    ensures a == b
    decreases |a|
  {
    if a == [] {
      assert |multiset(b)| == 0;
    } else {
      assert |b| == |multiset(b)| == |a|;
      assert a[0] in multiset(b) && b[0] in multiset(a);
      var i :| 0 <= i < |b| && b[i] == a[0];
      var j :| 0 <= j < |a| && a[j] == b[0];
      assert le(b[0], a[0]) by { if i > 0 { assert le(b[0], b[i]); } }
      assert le(a[0], b[0]) by { if j > 0 { assert le(a[0], a[j]); } }
      assert a[0] == b[0];
      TailMultiset(a, b);
      SortedUnique(a[1..], b[1..], le);
    }
  }

  /** Sorting forgets the input order: permutations sort to the same list. */
  lemma SortPermutation<T(!new)>(a: seq<T>, b: seq<T>, le: (T, T) -> bool)
    requires TotalOrder(le)
    requires multiset(a) == multiset(b)
    ensures Sort(a, le) == Sort(b, le)
  {
    SortedUnique(Sort(a, le), Sort(b, le), le);
  }

  /** A list that is already sorted is its own sort. */
  lemma SortSorted<T(!new)>(a: seq<T>, le: (T, T) -> bool)
    requires TotalOrder(le) && SortedBy(a, le)
    ensures Sort(a, le) == a
  {
    SortedUnique(Sort(a, le), a, le);
  }

  lemma SortedTwo<T>(a: T, b: T, le: (T, T) -> bool)
    requires le(a, b)
    ensures SortedBy([a, b], le)
  {
  }

  lemma SortedThree<T>(a: T, b: T, c: T, le: (T, T) -> bool)
    requires le(a, b) && le(b, c) && le(a, c)
    ensures SortedBy([a, b, c], le)
  {
  }

  /** Code-unit lexicographic order on strings: JavaScript's default
      comparison of strings. */
  predicate LexLe(a: string, b: string)
    decreases |a|
  {
    |a| == 0 || (|b| > 0 && (a[0] < b[0] || (a[0] == b[0] && LexLe(a[1..], b[1..]))))
  }

  lemma {:induction false} LexAntisymmetric(a: string, b: string)
    requires LexLe(a, b) && LexLe(b, a)
    ensures a == b
    decreases |a|
  {
    if |a| > 0 {
      LexAntisymmetric(a[1..], b[1..]);
      assert a == [a[0]] + a[1..] && b == [b[0]] + b[1..];
    }
  }

  lemma {:induction false} LexTransitive(a: string, b: string, c: string)
    requires LexLe(a, b) && LexLe(b, c)
    ensures LexLe(a, c)
    decreases |a|
  {
    if |a| > 0 && a[0] == b[0] && b[0] == c[0] {
      LexTransitive(a[1..], b[1..], c[1..]);
    }
  }

  lemma {:induction false} LexTotal(a: string, b: string)
    ensures LexLe(a, b) || LexLe(b, a)
    decreases |a|
  {
    if |a| > 0 && |b| > 0 && a[0] == b[0] {
      LexTotal(a[1..], b[1..]);
    }
  }

  lemma LexTotalOrder()
    ensures TotalOrder(LexLe)
  {
    forall x, y | LexLe(x, y) && LexLe(y, x) ensures x == y { LexAntisymmetric(x, y); }
    forall x, y, z | LexLe(x, y) && LexLe(y, z) ensures LexLe(x, z) { LexTransitive(x, y, z); }
    forall x, y ensures LexLe(x, y) || LexLe(y, x) { LexTotal(x, y); }
  }

  /** Numeric order on integers. */
  predicate IntLe(a: int, b: int) { a <= b }

  lemma IntTotalOrder()
    ensures TotalOrder(IntLe)
  {
  }
}
