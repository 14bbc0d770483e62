/** Sequence vocabulary shared by the whole model: the nullable column type,
    order-preserving filtering, first-occurrence de-duplication (what both
    SQL DISTINCT and a JavaScript `Map`/`Set` keyed on a value do), sums, and
    the join/split pair used for every delimited string in the program. */
module Seqs {

  /** A nullable value: `None` is SQL NULL or JavaScript `null`. */
  datatype Option<+T> = None | Some(value: T)

  /** The identity function, used as the key of plain de-duplication. */
  function Id<T>(x: T): T { x }

  /** The elements of `s` satisfying `p`, in their original order. */
  function Filter<T(!new)>(s: seq<T>, p: T -> bool): (r: seq<T>)
    ensures |r| <= |s|
    ensures forall x :: x in r <==> x in s && p(x)
    decreases |s|
  {
    if s == [] then []
    else
      var init := s[..|s| - 1];
      assert forall x :: x in s <==> x in init || x == s[|s| - 1];
      Filter(init, p) + (if p(s[|s| - 1]) then [s[|s| - 1]] else [])
  }

  lemma {:induction false} FilterAppend<T(!new)>(a: seq<T>, b: seq<T>, p: T -> bool)
    ensures Filter(a + b, p) == Filter(a, p) + Filter(b, p)
    decreases |b|
  {
    if b == [] {
      assert a + b == a;
    } else {
      var b' := b[..|b| - 1];
      var x := b[|b| - 1];
      var tail := if p(x) then [x] else [];
      FilterAppend(a, b', p);
      assert (a + b)[..|a + b| - 1] == a + b';
      assert (a + b)[|a + b| - 1] == x;
      assert Filter(a + b, p) == Filter(a + b', p) + tail;
      assert Filter(b, p) == Filter(b', p) + tail;
      AppendAssoc(Filter(a, p), Filter(b', p), tail);
    }
  }

  lemma AppendAssoc<T>(x: seq<T>, y: seq<T>, z: seq<T>)
    ensures x + y + z == x + (y + z)
  {
  }

  /** Filters that agree on the elements of `s` keep the same elements. */
  lemma {:induction false} FilterCongruent<T(!new)>(s: seq<T>, p1: T -> bool, p2: T -> bool)
    requires forall x :: x in s ==> p1(x) == p2(x)
    ensures Filter(s, p1) == Filter(s, p2)
    decreases |s|
  {
    if s != [] {
      FilterCongruent(s[..|s| - 1], p1, p2);
      assert s[|s| - 1] in s;
    }
  }

  /** Filtering one element keeps it exactly when it passes. */
  lemma FilterSingleton<T(!new)>(x: T, p: T -> bool)
    ensures Filter([x], p) == if p(x) then [x] else []
  {
    assert [x][..0] == [];
  }

  /** Filtering a sequence front first. */
  lemma FilterCons<T(!new)>(s: seq<T>, p: T -> bool)
    requires s != []
    ensures Filter(s, p) == (if p(s[0]) then [s[0]] else []) + Filter(s[1..], p)
  {
    assert [s[0]] + s[1..] == s;
    FilterAppend([s[0]], s[1..], p);
    FilterSingleton(s[0], p);
  }

  /** Filtering a sequence with one more element at the end. */
  lemma FilterSnoc<T(!new)>(s: seq<T>, x: T, p: T -> bool)
    ensures Filter(s + [x], p) == Filter(s, p) + (if p(x) then [x] else [])
  {
    assert (s + [x])[..|s|] == s;
    assert (s + [x])[|s|] == x;
  }

  /** Splitting a list by a predicate and its negation loses nothing. */
  lemma {:induction false} FilterMultiset<T(!new)>(s: seq<T>, p: T -> bool, q: T -> bool)
    requires forall x :: q(x) == !p(x)
    ensures multiset(Filter(s, p)) + multiset(Filter(s, q)) == multiset(s)
    decreases |s|
  {
    if s != [] {
      var pre := s[..|s| - 1];
      var x := s[|s| - 1];
      FilterMultiset(pre, p, q);
      assert s == pre + [x];
      FilterMultisetStep(pre, x, p, q);
    }
  }

  lemma FilterMultisetStep<T(!new)>(pre: seq<T>, x: T, p: T -> bool, q: T -> bool)
    requires q(x) == !p(x)
    requires multiset(Filter(pre, p)) + multiset(Filter(pre, q)) == multiset(pre)
    ensures multiset(Filter(pre + [x], p)) + multiset(Filter(pre + [x], q)) == multiset(pre + [x])
  {
    if p(x) {
      FilterMultisetKept(pre, x, p, q);
    } else {
      FilterMultisetKept(pre, x, q, p);
    }
  }

  lemma FilterMultisetKept<T(!new)>(pre: seq<T>, x: T, p: T -> bool, q: T -> bool)
    requires p(x) && !q(x)
    requires multiset(Filter(pre, p)) + multiset(Filter(pre, q)) == multiset(pre)
    ensures multiset(Filter(pre + [x], p)) + multiset(Filter(pre + [x], q)) == multiset(pre + [x])
  {
    var a, b := Filter(pre, p), Filter(pre, q);
    FilterSnoc(pre, x, p);
    FilterSnoc(pre, x, q);
    assert b + [] == b;
    MultisetSnocSum(a, b, pre, x);
  }

  lemma MultisetSnocSum<T>(a: seq<T>, b: seq<T>, pre: seq<T>, x: T)
    requires multiset(a) + multiset(b) == multiset(pre)
    ensures multiset(a + [x]) + multiset(b) == multiset(pre + [x])
  {
    assert multiset(pre + [x]) == multiset(pre) + multiset{x};
    assert multiset(a + [x]) == multiset(a) + multiset{x};
  }

  /** A filter no element passes keeps nothing. */
  lemma FilterNone<T(!new)>(s: seq<T>, p: T -> bool)
    requires forall x :: x in s ==> !p(x)
    ensures Filter(s, p) == []
  {
  }

  /** A filter every element passes keeps the whole sequence. */
  lemma {:induction false} FilterAll<T(!new)>(s: seq<T>, p: T -> bool)
    requires forall x :: x in s ==> p(x)
    ensures Filter(s, p) == s
    decreases |s|
  {
    if s != [] {
      var init := s[..|s| - 1];
      var last := s[|s| - 1];
      assert s == init + [last];
      forall x | x in init ensures p(x) {
        assert x in s;
      }
      FilterAll(init, p);
      assert p(last);
      FilterSnoc(init, last, p);
    }
  }

  /** Element-wise image of `s` under `f`. */
  function Map<T, U>(s: seq<T>, f: T -> U): (r: seq<U>)
    ensures |r| == |s|
    ensures forall i :: 0 <= i < |s| ==> r[i] == f(s[i])
  {
    seq(|s|, i requires 0 <= i < |s| => f(s[i]))
  }

  /** Images that agree on the elements of `s` give the same sequence. */
  lemma MapCongruent<T, U>(s: seq<T>, f1: T -> U, f2: T -> U)
    requires forall x :: x in s ==> f1(x) == f2(x)
    ensures Map(s, f1) == Map(s, f2)
  {
    assert forall i :: 0 <= i < |s| ==> s[i] in s;
  }

  lemma MapSnoc<T, U>(s: seq<T>, x: T, f: T -> U)
    ensures Map(s + [x], f) == Map(s, f) + [f(x)]
  {
  }

  /** The image of a non-empty sequence, last element apart. */
  lemma MapLast<T, U>(s: seq<T>, f: T -> U)
    requires s != []
    ensures Map(s, f) == Map(s[..|s| - 1], f) + [f(s[|s| - 1])]
  {
  }

  lemma MapAppend<T, U>(a: seq<T>, b: seq<T>, f: T -> U)
    ensures Map(a + b, f) == Map(a, f) + Map(b, f)
  {
  }

  /** The elements of a sequence without its last one are among its elements. */
  lemma InitIn<T>(s: seq<T>)
    requires s != []
    ensures forall x :: x in s[..|s| - 1] ==> x in s
  {
  }

  /** The set of keys that rows of `s` carry. */
  function KeysOf<T, K>(s: seq<T>, key: T -> K): set<K>
  {
    set i | 0 <= i < |s| :: key(s[i])
  }

  /** The values of a mapped sequence are the keys the function gives
      its elements. */
  lemma MapValues<T, U>(s: seq<T>, f: T -> U)
    ensures (set x | x in Map(s, f)) == KeysOf(s, f)
  {
    var m := Map(s, f);
    forall x | x in m ensures x in KeysOf(s, f) {
      var j :| 0 <= j < |m| && m[j] == x;
    }
  }

  lemma KeysOfSnoc<T, K>(s: seq<T>, x: T, key: T -> K)
    ensures KeysOf(s + [x], key) == KeysOf(s, key) + {key(x)}
  {
    var l := KeysOf(s + [x], key);
    var r := KeysOf(s, key) + {key(x)};
    forall k | k in l ensures k in r {
      var i :| 0 <= i < |s| + 1 && key((s + [x])[i]) == k;
      if i < |s| { assert (s + [x])[i] == s[i]; }
    }
    forall k | k in r ensures k in l {
      if k == key(x) {
        assert (s + [x])[|s|] == x;
      } else {
        var i :| 0 <= i < |s| && key(s[i]) == k;
        assert (s + [x])[i] == s[i];
      }
    }
  }

  /** No two rows of `s` share a key. */
  predicate UniqueKeys<T, K(==)>(s: seq<T>, key: T -> K)
  {
    forall i, j :: 0 <= i < j < |s| ==> key(s[i]) != key(s[j])
  }

  /** No element of `s` occurs twice. */
  predicate NoDup<T(==)>(s: seq<T>)
  {
    forall i, j :: 0 <= i < j < |s| ==> s[i] != s[j]
  }

  /** Filtering keeps keys unique. */
  lemma {:induction false} FilterUniqueKeys<T(!new), K>(s: seq<T>, p: T -> bool, key: T -> K)
    requires UniqueKeys(s, key)
    ensures UniqueKeys(Filter(s, p), key)
    decreases |s|
  {
    if s != [] {
      var init := s[..|s| - 1];
      var x := s[|s| - 1];
      assert UniqueKeys(init, key) by {
        forall i, j | 0 <= i < j < |init| ensures key(init[i]) != key(init[j]) {
          assert init[i] == s[i] && init[j] == s[j];
        }
      }
      FilterUniqueKeys(init, p, key);
      var fi := Filter(init, p);
      if p(x) {
        forall i | 0 <= i < |fi| ensures key(fi[i]) != key(x) {
          assert fi[i] in init;
          var j :| 0 <= j < |init| && init[j] == fi[i];
          assert s[j] == init[j];
        }
        assert Filter(s, p) == fi + [x];
      }
    }
  }

  lemma {:induction false} UniqueKeysCard<T, K>(s: seq<T>, key: T -> K)
    requires UniqueKeys(s, key)
    ensures |KeysOf(s, key)| == |s|
    decreases |s|
  {
    if s != [] {
      var init := s[..|s| - 1];
      assert s == init + [s[|s| - 1]];
      UniqueKeysCard(init, key);
      KeysOfSnoc(init, s[|s| - 1], key);
      assert key(s[|s| - 1]) !in KeysOf(init, key);
    }
  }

  /** Keeps the first row for every key, in order: Prisma's `distinct`, SQL
      `SELECT DISTINCT` (with `key` the selected columns) and a JavaScript
      `Set`/`Map` filled in row order all behave this way. */
  function DistinctBy<T(!new), K(==)>(s: seq<T>, key: T -> K): (r: seq<T>)
    ensures |r| <= |s|
    ensures forall x :: x in r ==> x in s
    ensures KeysOf(r, key) == KeysOf(s, key)
    ensures UniqueKeys(r, key)
    decreases |s|
  {
    if s == [] then []
    else
      var init := s[..|s| - 1];
      var x := s[|s| - 1];
      assert s == init + [x];
      KeysOfSnoc(init, x, key);
      var d := DistinctBy(init, key);
      KeysOfSnoc(d, x, key);
      if key(x) in KeysOf(d, key) then d else d + [x]
  }

  /** De-duplicating on a key that determines another column keeps every
      value of that column. */
  lemma DistinctByKeysOf<T(!new), D, K>(s: seq<T>, dk: T -> D, key: T -> K)
    requires forall x, y :: dk(x) == dk(y) ==> key(x) == key(y)
    ensures KeysOf(DistinctBy(s, dk), key) == KeysOf(s, key)
  {
    var d := DistinctBy(s, dk);
    forall k | k in KeysOf(s, key) ensures k in KeysOf(d, key) {
      var i :| 0 <= i < |s| && key(s[i]) == k;
      assert dk(s[i]) in KeysOf(s, dk);
      var j :| 0 <= j < |d| && dk(d[j]) == dk(s[i]);
      assert key(d[j]) == k;
    }
    forall k | k in KeysOf(d, key) ensures k in KeysOf(s, key) {
      var j :| 0 <= j < |d| && key(d[j]) == k;
      assert d[j] in s;
      var i :| 0 <= i < |s| && s[i] == d[j];
      assert key(s[i]) == k;
    }
  }

  /** The keys of the rows a filter keeps. */
  lemma KeysOfFilter<T(!new), K>(s: seq<T>, p: T -> bool, key: T -> K, k: K)
    ensures k in KeysOf(Filter(s, p), key) <==> exists i :: 0 <= i < |s| && p(s[i]) && key(s[i]) == k
  {
    var r := Filter(s, p);
    if k in KeysOf(r, key) {
      var j :| 0 <= j < |r| && key(r[j]) == k;
      assert r[j] in s;
      var i :| 0 <= i < |s| && s[i] == r[j];
      assert p(s[i]) && key(s[i]) == k;
    }
    if exists i :: 0 <= i < |s| && p(s[i]) && key(s[i]) == k {
      var i :| 0 <= i < |s| && p(s[i]) && key(s[i]) == k;
      assert s[i] in r;
      var j :| 0 <= j < |r| && r[j] == s[i];
      assert key(r[j]) == k;
    }
  }

  lemma DistinctByCard<T(!new), K>(s: seq<T>, key: T -> K)
    ensures |DistinctBy(s, key)| == |KeysOf(s, key)|
  {
    UniqueKeysCard(DistinctBy(s, key), key);
  }

  /** Plain de-duplication keeping first occurrences. */
  function Distinct<T(==,!new)>(s: seq<T>): (r: seq<T>)
    ensures forall x :: x in r <==> x in s
    ensures NoDup(r)
    ensures |r| == |set x | x in s|
  {
    var r := DistinctBy(s, Id);
    assert forall x :: x in KeysOf(s, Id) <==> x in s by {
      forall x ensures x in KeysOf(s, Id) <==> x in s {
        if x in s { var i :| 0 <= i < |s| && s[i] == x; assert Id(s[i]) == x; }
      }
    }
    assert forall x :: x in KeysOf(r, Id) <==> x in r by {
      forall x ensures x in KeysOf(r, Id) <==> x in r {
        if x in r { var i :| 0 <= i < |r| && r[i] == x; assert Id(r[i]) == x; }
      }
    }
    assert KeysOf(s, Id) == set x | x in s;
    DistinctByCard(s, Id);
    r
  }

  /** Appending an element extends the de-duplicated list exactly when the
      element is new. */
  lemma DistinctSnoc<T(!new)>(s: seq<T>, x: T)
    ensures Distinct(s + [x]) == if x in s then Distinct(s) else Distinct(s) + [x]
  {
    assert (s + [x])[..|s + [x]| - 1] == s;
    var d := DistinctBy(s, Id);
    assert x in KeysOf(d, Id) <==> x in d by {
      if x in d { var j :| 0 <= j < |d| && d[j] == x; assert Id(d[j]) == x; }
    }
  }

  function Sum(s: seq<int>): int
    decreases |s|
  {
    if s == [] then 0 else Sum(s[..|s| - 1]) + s[|s| - 1]
  }

  lemma {:induction false} SumAppend(a: seq<int>, b: seq<int>)
    ensures Sum(a + b) == Sum(a) + Sum(b)
    decreases |b|
  {
    if b == [] {
      assert a + b == a;
    } else {
      SumAppend(a, b[..|b| - 1]);
      assert (a + b)[..|a + b| - 1] == a + b[..|b| - 1];
      assert (a + b)[|a + b| - 1] == b[|b| - 1];
    }
  }

  /** `parts.join(sep)` for a one-character separator. */
  function Join(parts: seq<string>, sep: char): string
    decreases |parts|
  {
    if |parts| == 0 then ""
    else if |parts| == 1 then parts[0]
    else Join(parts[..|parts| - 1], sep) + [sep] + parts[|parts| - 1]
  }

  /** `s.split(sep)` for a one-character separator: the empty string gives
      one empty piece, and every separator starts a new piece. */
  function Split(s: string, sep: char): (r: seq<string>)
    ensures |r| >= 1
    decreases |s|
  {
    if s == [] then [""]
    else
      var p := Split(s[..|s| - 1], sep);
      if s[|s| - 1] == sep then p + [""]
      else p[..|p| - 1] + [p[|p| - 1] + [s[|s| - 1]]]
  }

  lemma {:induction false} SplitNoSep(y: string, sep: char)
    requires sep !in y
    ensures Split(y, sep) == [y]
    decreases |y|
  {
    if y != [] {
      var t, c := y[..|y| - 1], y[|y| - 1];
      assert t + [c] == y;
      assert sep !in t by {
        forall i | 0 <= i < |t| ensures t[i] == y[i] { }
      }
      SplitNoSep(t, sep);
      SplitNoSepStep(t, c, sep);
    }
  }

  lemma SplitNoSepStep(t: string, c: char, sep: char)
    requires c != sep
    requires Split(t, sep) == [t]
    ensures Split(t + [c], sep) == [t + [c]]
  {
    SnocOther(t, c, sep);
  }

  lemma SplitSnoc(t: string, c: char, sep: char)
    ensures Split(t + [c], sep) ==
      var p := Split(t, sep);
      if c == sep then p + [""] else p[..|p| - 1] + [p[|p| - 1] + [c]]
  {
    assert (t + [c])[..|t|] == t;
  }

  lemma AppendPiece(a: seq<string>, b: seq<string>, c: char)
    requires |b| >= 1
    ensures (a + b)[..|a + b| - 1] + [(a + b)[|a + b| - 1] + [c]]
            == a + (b[..|b| - 1] + [b[|b| - 1] + [c]])
  {
  }

  lemma {:induction false} SplitAtSep(x: string, y: string, sep: char)
    ensures Split(x + [sep] + y, sep) == Split(x, sep) + Split(y, sep)
    decreases |y|
  {
    if y == [] {
      SplitAtSepEmpty(x, sep);
    } else {
      var y' := y[..|y| - 1];
      var c := y[|y| - 1];
      SplitAtSep(x, y', sep);
      SplitAtSepStep(x, y', c, sep);
      assert y' + [c] == y;
    }
  }

  lemma SplitAtSepEmpty(x: string, sep: char)
    ensures Split(x + [sep] + [], sep) == Split(x, sep) + Split([], sep)
  {
    assert x + [sep] + [] == x + [sep];
    SplitSnoc(x, sep, sep);
  }

  /** One step of `SplitAtSep`: appending a character to the right part. */
  lemma SplitAtSepStep(x: string, y': string, c: char, sep: char)
    requires Split(x + [sep] + y', sep) == Split(x, sep) + Split(y', sep)
    ensures Split(x + [sep] + (y' + [c]), sep) == Split(x, sep) + Split(y' + [c], sep)
  {
    if c == sep {
      StepSep(x, y', c, sep);
    } else {
      StepOther(x, y', c, sep);
    }
  }

  lemma StepSep(x: string, y': string, c: char, sep: char)
    requires c == sep
    requires Split(x + [sep] + y', sep) == Split(x, sep) + Split(y', sep)
    ensures Split(x + [sep] + (y' + [c]), sep) == Split(x, sep) + Split(y' + [c], sep)
  {
    var s1 := x + [sep] + y';
    SnocShift(x + [sep], y', c);
    SnocSep(s1, c, sep);
    SnocSep(y', c, sep);
    AppendAssoc(Split(x, sep), Split(y', sep), [""]);
  }

  lemma StepOther(x: string, y': string, c: char, sep: char)
    requires c != sep
    requires Split(x + [sep] + y', sep) == Split(x, sep) + Split(y', sep)
    ensures Split(x + [sep] + (y' + [c]), sep) == Split(x, sep) + Split(y' + [c], sep)
  {
    var s1 := x + [sep] + y';
    SnocShift(x + [sep], y', c);
    SnocOther(s1, c, sep);
    SnocOther(y', c, sep);
    AppendPiece(Split(x, sep), Split(y', sep), c);
  }

  lemma SnocShift<T>(a: seq<T>, b: seq<T>, c: T)
    ensures a + (b + [c]) == a + b + [c]
  {
  }

  lemma SnocSep(t: string, c: char, sep: char)
    requires c == sep
    ensures Split(t + [c], sep) == Split(t, sep) + [""]
  {
    SplitSnoc(t, c, sep);
  }

  lemma SnocOther(t: string, c: char, sep: char)
    requires c != sep
    ensures var p := Split(t, sep); Split(t + [c], sep) == p[..|p| - 1] + [p[|p| - 1] + [c]]
  {
    SplitSnoc(t, c, sep);
  }

  /** Splitting a joined list gives the list back when no part holds the
      separator. */
  lemma {:induction false} SplitJoin(parts: seq<string>, sep: char)
    requires |parts| >= 1
    requires forall i :: 0 <= i < |parts| ==> sep !in parts[i]
    ensures Split(Join(parts, sep), sep) == parts
    decreases |parts|
  {
    if |parts| == 1 {
      SplitNoSep(parts[0], sep);
    } else {
      var init := parts[..|parts| - 1];
      var last := parts[|parts| - 1];
      assert Join(parts, sep) == Join(init, sep) + [sep] + last;
      SplitJoin(init, sep);
      SplitAtSep(Join(init, sep), last, sep);
      SplitNoSep(last, sep);
      assert init + [last] == parts;
    }
  }

  /** The values inside the `Some`s of `s`, in order: what
      `.filter(x => x !== null)` (or `!isNaN`) keeps after a `map`. */
  function Somes<T(!new)>(s: seq<Option<T>>): (r: seq<T>)
    ensures |r| <= |s|
    ensures forall x :: x in r <==> Some(x) in s
    decreases |s|
  {
    if s == [] then []
    else
      var init := s[..|s| - 1];
      assert forall o :: o in s <==> o in init || o == s[|s| - 1];
      Somes(init) + (if s[|s| - 1].Some? then [s[|s| - 1].value] else [])
  }

  /** A list whose every entry is a `Some` loses nothing to `Somes`. */
  lemma {:induction false} SomesAllSome<T(!new)>(s: seq<T>, w: seq<Option<T>>)
    requires |w| == |s| && forall i :: 0 <= i < |s| ==> w[i] == Some(s[i])
    ensures Somes(w) == s
    decreases |s|
  {
    if s != [] {
      var init := s[..|s| - 1];
      SomesAllSome(init, w[..|w| - 1]);
      assert Somes(w) == init + [s[|s| - 1]];
      assert init + [s[|s| - 1]] == s;
    }
  }

  /** The non-null values of one column, in row order:
      `rows.map(r => r.COL).filter(x => x !== null)`. */
  function Column<T, K(!new)>(s: seq<T>, key: T -> Option<K>): (r: seq<K>)
    ensures |r| <= |s|
    ensures forall v :: v in r <==> Some(v) in KeysOf(s, key)
  {
    var m := Map(s, key);
    assert forall o :: o in m <==> o in KeysOf(s, key) by {
      forall o ensures o in m <==> o in KeysOf(s, key) {
        if o in m { var i :| 0 <= i < |m| && m[i] == o; assert key(s[i]) == o; }
        if o in KeysOf(s, key) { var i :| 0 <= i < |s| && key(s[i]) == o; assert m[i] == o; }
      }
    }
    Somes(m)
  }

  /** The first element of `s` satisfying `p`: `Array.prototype.find`. */
  function First<T>(s: seq<T>, p: T -> bool): (r: Option<T>)
    ensures r.None? <==> forall i :: 0 <= i < |s| ==> !p(s[i])
    ensures r.Some? ==> exists i :: 0 <= i < |s| && s[i] == r.value && p(s[i])
                          && forall j :: 0 <= j < i ==> !p(s[j])
    decreases |s|
  {
    if s == [] then None
    else if p(s[0]) then Some(s[0])
    else
      var r := First(s[1..], p);
      FirstShift(s, p, r);
      r
  }

  lemma FirstShift<T>(s: seq<T>, p: T -> bool, r: Option<T>)
    requires |s| > 0 && !p(s[0])
    requires r.Some? ==> exists i :: 0 <= i < |s[1..]| && s[1..][i] == r.value && p(s[1..][i])
                           && forall j :: 0 <= j < i ==> !p(s[1..][j])
    ensures r.Some? ==> exists i :: 0 <= i < |s| && s[i] == r.value && p(s[i])
                          && forall j :: 0 <= j < i ==> !p(s[j])
  {
    if r.Some? {
      var i :| 0 <= i < |s[1..]| && s[1..][i] == r.value && p(s[1..][i])
               && forall j :: 0 <= j < i ==> !p(s[1..][j]);
      assert s[i + 1] == r.value;
      forall j | 1 <= j < i + 1 ensures !p(s[j]) { assert s[j] == s[1..][j - 1]; }
    }
  }

  /** When `g` determines `f` on the rows of `s`, there are no more
      distinct `f`-values than distinct `g`-values. */
  lemma {:induction false} KeysOfMono<T, A, B>(s: seq<T>, f: T -> A, g: T -> B)
    requires forall i, j :: 0 <= i < |s| && 0 <= j < |s| && g(s[i]) == g(s[j]) ==> f(s[i]) == f(s[j])
    ensures |KeysOf(s, f)| <= |KeysOf(s, g)|
    decreases |s|
  {
    if s != [] {
      var init := s[..|s| - 1];
      var x := s[|s| - 1];
      assert s == init + [x];
      KeysOfMono(init, f, g);
      KeysOfSnoc(init, x, f);
      KeysOfSnoc(init, x, g);
      if g(x) in KeysOf(init, g) {
        var i :| 0 <= i < |init| && g(init[i]) == g(x);
        assert s[i] == init[i];
        assert f(x) == f(init[i]);
      }
    }
  }

  /** A key function injective on the rows of `s` has as many values as
      the key it refines. */
  lemma {:induction false} KeysOfSame<T, A, B>(s: seq<T>, f: T -> A, g: T -> B)
    requires forall i, j :: 0 <= i < |s| && 0 <= j < |s| ==> (g(s[i]) == g(s[j]) <==> f(s[i]) == f(s[j]))
    ensures |KeysOf(s, f)| == |KeysOf(s, g)|
  {
    KeysOfMono(s, f, g);
    KeysOfMono(s, g, f);
  }
}
