/** The cache key of the multi-filter hierarchy endpoint: eight
    whitelisted query parameters, each value canonicalised by string
    sorting, joined as `name:value` segments behind a fixed prefix. */
module CacheKey {
  import opened Seqs
  import opened Sorting

  /** A query-string value as the HTTP layer delivers it: one string
      (possibly comma separated) or a repeated parameter. */
  datatype QValue = QStr(s: string) | QArr(items: seq<string>)

  type Query = map<string, QValue>

  const Prefix: string := "hierarchy:multiple:"

  /** The parameters that take part in the key, in the order they are read. */
  const FilterKeys: seq<string> :=
    ["clusterId", "sambhagId", "jilaId", "lokId", "vidId", "manId", "sakhaId", "btId"]

  /** The same names in ascending code-unit order. */
  const SortedFilterKeys: seq<string> :=
    ["btId", "clusterId", "jilaId", "lokId", "manId", "sakhaId", "sambhagId", "vidId"]

  /** `if (query[key])`: an empty string is falsy, an array never is. */
  predicate QTruthy(v: QValue)
  {
    v.QArr? || v.s != ""
  }

  /** The pieces a value is sorted as: the array itself, or the string
      split on commas. */
  function Pieces(v: QValue): seq<string>
  {
    match v
    case QArr(xs) => xs
    case QStr(s) => Split(s, ',')
  }

  /** The canonical value text: the pieces sorted as strings and joined
      with commas. Duplicates are kept. */
  function Canonical(v: QValue): string
  {
    Join(Sort(Pieces(v), LexLe), ',')
  }

  /** A parameter contributes a segment when it is present, truthy and
      its canonical text is not empty. */
  predicate Contributes(q: Query, k: string)
  {
    k in q && QTruthy(q[k]) && |Canonical(q[k])| > 0
  }

  function ContributesIn(q: Query): string -> bool
  {
    k => Contributes(q, k)
  }

  function SegmentIn(q: Query): string -> string
  {
    k => Segment(q, k)
  }

  function Segment(q: Query, k: string): string
  {
    if k in q then k + ":" + Canonical(q[k]) else k + ":"
  }

  /** The contributing parameter names, in the order they are read. */
  function NamesOf(q: Query): seq<string>
  {
    Filter(FilterKeys, ContributesIn(q))
  }

  /** The contributing parameter names in the fixed alphabetical list. */
  function NamesInOrder(q: Query): seq<string>
  {
    Filter(SortedFilterKeys, ContributesIn(q))
  }

  function SegmentsOf(q: Query, names: seq<string>): seq<string>
  {
    Map(names, SegmentIn(q))
  }

  /** `generateHierarchyCacheKey`: the contributing names in reading
      order, sorted, rendered as segments and joined with `|`. */
  function HierarchyCacheKey(q: Query): (r: string)
    ensures |r| >= |Prefix| && r[..|Prefix|] == Prefix
  {
    Prefix + Join(SegmentsOf(q, Sort(NamesOf(q), LexLe)), '|')
  }

  lemma SortedFilterKeysSorted()
    ensures SortedBy(SortedFilterKeys, LexLe)
  {
    var s := SortedFilterKeys;
    forall i, j | 0 <= i < j < |s| ensures LexLe(s[i], s[j]) {
      assert LexLe(s[0], s[1]) && LexLe(s[1], s[2]) && LexLe(s[2], s[3]) && LexLe(s[3], s[4]);
      assert LexLe(s[4], s[5]) && LexLe(s[5], s[6]) && LexLe(s[6], s[7]);
      LexTotalOrder();
      SortedStep(s, i, j);
    }
  }

  /** In a chain that is ordered pairwise between neighbours, every pair is ordered. */
  lemma {:induction false} SortedStep(s: seq<string>, i: int, j: int)
    requires TotalOrder(LexLe)
    requires forall k :: 0 <= k < |s| - 1 ==> LexLe(s[k], s[k + 1])
    requires 0 <= i < j < |s|
    ensures LexLe(s[i], s[j])
    decreases j - i
  {
    if j > i + 1 {
      SortedStep(s, i, j - 1);
      assert LexLe(s[j - 1], s[j]);
    }
  }

  /** A subsequence kept by `Filter` of a sorted list is sorted. */
  lemma {:induction false} FilterSorted(s: seq<string>, p: string -> bool)
    requires SortedBy(s, LexLe)
    ensures SortedBy(Filter(s, p), LexLe)
    decreases |s|
  {
    if s != [] {
      var init := s[..|s| - 1];
      var x := s[|s| - 1];
      FilterSorted(init, p);
      var f := Filter(init, p);
      if p(x) {
        forall i, j | 0 <= i < j < |f + [x]| ensures LexLe((f + [x])[i], (f + [x])[j]) {
          if j == |f| {
            assert f[i] in f;
            var k :| 0 <= k < |init| && init[k] == f[i];
          }
        }
      }
    }
  }

  lemma {:induction false} FilterNoDup(s: seq<string>, p: string -> bool)
    requires NoDup(s)
    ensures NoDup(Filter(s, p))
    decreases |s|
  {
    if s != [] {
      var init := s[..|s| - 1];
      var x := s[|s| - 1];
      FilterNoDup(init, p);
      var f := Filter(init, p);
      if p(x) {
        forall i | 0 <= i < |f| ensures f[i] != x {
          assert f[i] in f;
          var k :| 0 <= k < |init| && init[k] == f[i];
        }
      }
    }
  }

  /** Two duplicate-free lists with the same members are permutations. */
  lemma {:induction false} NoDupMultiset(a: seq<string>, b: seq<string>)
    requires NoDup(a) && NoDup(b)
    requires forall x :: x in a <==> x in b
    ensures multiset(a) == multiset(b)
  {
    forall x ensures multiset(a)[x] == multiset(b)[x] {
      NoDupCount(a, x);
      NoDupCount(b, x);
    }
  }

  /** A duplicate-free list holding `a` and nothing else is `[a]`. */
  lemma SingletonNoDup(r: seq<string>, a: string)
    requires NoDup(r) && a in r
    requires forall x :: x in r ==> x == a
    ensures r == [a]
  {
    NoDupMultiset(r, [a]);
    assert |r| == |multiset(r)| == |multiset([a])| == 1;
    assert r[0] in r;
  }

  lemma {:induction false} NoDupCount(a: seq<string>, x: string)
    requires NoDup(a)
    ensures multiset(a)[x] == if x in a then 1 else 0
    decreases |a|
  {
    if a != [] {
      var init := a[..|a| - 1];
      assert a == init + [a[|a| - 1]];
      NoDupCount(init, x);
      assert a[|a| - 1] !in init by {
        forall k | 0 <= k < |init| ensures init[k] != a[|a| - 1] { assert init[k] == a[k]; }
      }
    }
  }

  lemma FilterKeysShape()
    ensures NoDup(FilterKeys) && NoDup(SortedFilterKeys)
    ensures forall k :: k in FilterKeys <==> k in SortedFilterKeys
  {
  }

  /** The segments appear in ascending parameter-name order: the key is the
      prefix followed by the contributing names of the fixed alphabetical
      list, rendered as `name:value` and joined with `|`. */
  lemma KeyInNameOrder(q: Query)
    ensures HierarchyCacheKey(q) == Prefix + Join(SegmentsOf(q, NamesInOrder(q)), '|')
  {
    var p := ContributesIn(q);
    LexTotalOrder();
    FilterKeysShape();
    FilterNoDup(FilterKeys, p);
    FilterNoDup(SortedFilterKeys, p);
    NoDupMultiset(NamesOf(q), NamesInOrder(q));
    SortedFilterKeysSorted();
    FilterSorted(SortedFilterKeys, p);
    SortedUnique(Sort(NamesOf(q), LexLe), NamesInOrder(q), LexLe);
  }

  /** Two queries whose whitelisted parameters contribute alike, with
      the same segments, have the same key. */
  lemma KeyCongruent(q1: Query, q2: Query)
    requires forall k :: k in FilterKeys ==> Contributes(q1, k) == Contributes(q2, k)
    requires forall k :: k in FilterKeys && Contributes(q1, k) ==> Segment(q1, k) == Segment(q2, k)
    ensures HierarchyCacheKey(q1) == HierarchyCacheKey(q2)
  {
    var n1 := NamesOf(q1);
    FilterCongruent(FilterKeys, ContributesIn(q1), ContributesIn(q2));
    assert NamesOf(q1) == NamesOf(q2);
    var s := Sort(n1, LexLe);
    forall k | k in s ensures k in n1 {
      assert multiset(s)[k] > 0;
      assert k in multiset(n1);
    }
    MapCongruent(s, SegmentIn(q1), SegmentIn(q2));
    assert SegmentsOf(q1, s) == SegmentsOf(q2, s);
  }

  /** Only the eight whitelisted parameters matter. */
  lemma KeyIgnoresOtherParams(q1: Query, q2: Query)
    requires forall k :: k in FilterKeys ==> (k in q1 <==> k in q2)
    requires forall k :: k in FilterKeys && k in q1 ==> q1[k] == q2[k]
    ensures HierarchyCacheKey(q1) == HierarchyCacheKey(q2)
  {
    KeyCongruent(q1, q2);
  }

  /** Listing a parameter's values in another order gives the same canonical text. */
  lemma CanonicalPermutation(a: QValue, b: QValue)
    requires multiset(Pieces(a)) == multiset(Pieces(b))
    ensures Canonical(a) == Canonical(b)
  {
    LexTotalOrder();
    SortPermutation(Pieces(a), Pieces(b), LexLe);
  }

  /** Any two orderings of a parameter's values give the same key. */
  lemma KeyPermutation(q: Query, k: string, a: QValue, b: QValue)
    requires multiset(Pieces(a)) == multiset(Pieces(b))
    requires QTruthy(a) == QTruthy(b)
    ensures HierarchyCacheKey(q[k := a]) == HierarchyCacheKey(q[k := b])
  {
    CanonicalPermutation(a, b);
    UpdateCongruent(q, k, a, b);
  }

  /** Replacing a value by one with the same truthiness and canonical
      text keeps the key. */
  lemma UpdateCongruent(q: Query, k: string, a: QValue, b: QValue)
    requires QTruthy(a) == QTruthy(b) && Canonical(a) == Canonical(b)
    ensures HierarchyCacheKey(q[k := a]) == HierarchyCacheKey(q[k := b])
  {
    var q1 := q[k := a];
    var q2 := q[k := b];
    forall x
      ensures Contributes(q1, x) == Contributes(q2, x)
      ensures Contributes(q1, x) ==> Segment(q1, x) == Segment(q2, x)
    {
      if x == k {
        assert q1[x] == a && q2[x] == b;
      } else if x in q {
        assert q1[x] == q2[x];
      }
    }
    KeyCongruent(q1, q2);
  }

  /** A value that contributes nothing can be swapped for another such value. */
  lemma KeyNonContributing(q: Query, k: string, a: QValue, b: QValue)
    requires !(QTruthy(a) && |Canonical(a)| > 0)
    requires !(QTruthy(b) && |Canonical(b)| > 0)
    ensures HierarchyCacheKey(q[k := a]) == HierarchyCacheKey(q[k := b])
  {
    var q1 := q[k := a];
    var q2 := q[k := b];
    forall x
      ensures Contributes(q1, x) == Contributes(q2, x)
      ensures Contributes(q1, x) ==> Segment(q1, x) == Segment(q2, x)
    {
      SwapAgreesAt(q, k, a, b, x);
    }
    KeyCongruent(q1, q2);
  }

  lemma SwapAgreesAt(q: Query, k: string, a: QValue, b: QValue, x: string)
    requires !(QTruthy(a) && |Canonical(a)| > 0)
    requires !(QTruthy(b) && |Canonical(b)| > 0)
    ensures Contributes(q[k := a], x) == Contributes(q[k := b], x)
    ensures Contributes(q[k := a], x) ==> Segment(q[k := a], x) == Segment(q[k := b], x)
  {
    if x == k {
      assert !Contributes(q[k := a], x) && !Contributes(q[k := b], x);
    } else if x in q {
      assert q[k := a][x] == q[x] == q[k := b][x];
    } else {
      assert x !in q[k := a] && x !in q[k := b];
    }
  }

  /** The values as an array and as one comma-separated string give the
      same key, when no value holds a comma. */
  lemma KeyArrayOrString(q: Query, k: string, xs: seq<string>)
    requires forall i :: 0 <= i < |xs| ==> ',' !in xs[i]
    ensures HierarchyCacheKey(q[k := QArr(xs)]) == HierarchyCacheKey(q[k := QStr(Join(xs, ','))])
  {
    if xs == [] {
      assert Canonical(QArr(xs)) == "";
      KeyNonContributing(q, k, QArr(xs), QStr(Join(xs, ',')));
    } else if Join(xs, ',') == "" {
      JoinEmpty(xs);
      assert Canonical(QArr(xs)) == "";
      KeyNonContributing(q, k, QArr(xs), QStr(Join(xs, ',')));
    } else {
      SplitJoin(xs, ',');
      KeyPermutation(q, k, QArr(xs), QStr(Join(xs, ',')));
    }
  }

  /** Only `[""]` joins to the empty string. */
  lemma JoinEmpty(xs: seq<string>)
    requires |xs| >= 1 && Join(xs, ',') == ""
    ensures xs == [""]
  {
  }

  /** A filter over a duplicate-free list that keeps exactly one member. */
  lemma FilterOne(s: seq<string>, p: string -> bool, a: string)
    requires NoDup(s) && a in s
    requires forall x :: x in s ==> (p(x) <==> x == a)
    ensures Filter(s, p) == [a]
  {
    var r := Filter(s, p);
    FilterNoDup(s, p);
    assert forall x :: x in r ==> x == a;
    assert a in r;
    SingletonNoDup(r, a);
  }

  /** A query holding one contributing parameter alone names just it. */
  lemma SingleNames(q: Query, k: string, v: QValue)
    requires k in FilterKeys && q == map[k := v]
    requires QTruthy(v) && |Canonical(v)| > 0
    ensures NamesOf(q) == [k]
  {
    FilterKeysShape();
    forall x ensures ContributesIn(q)(x) <==> x == k {
    }
    FilterOne(FilterKeys, ContributesIn(q), k);
  }

  /** No filter at all: the key is the bare prefix. */
  lemma EmptyQueryKey()
    ensures HierarchyCacheKey(map[]) == Prefix
  {
    var q: Query := map[];
    FilterNone(FilterKeys, ContributesIn(q));
    assert NamesOf(q) == [];
    assert Sort([], LexLe) == [];
  }

  /** The key of a query holding one parameter `k` alone. */
  lemma SingleParamKey(q: Query, k: string, v: QValue)
    requires k in FilterKeys && q == map[k := v]
    requires QTruthy(v) && |Canonical(v)| > 0
    ensures HierarchyCacheKey(q) == Prefix + k + ":" + Canonical(v)
  {
    SingleNames(q, k, v);
    assert Sort([k], LexLe) == [k];
    var seg := Segment(q, k);
    assert SegmentsOf(q, [k]) == [seg];
    assert HierarchyCacheKey(q) == Prefix + Join([seg], '|');
    assert Join([seg], '|') == seg;
    assert q[k] == v;
    assert seg == k + ":" + Canonical(v);
    ConcatAssoc(Prefix, k, ":", Canonical(v));
  }

  lemma ConcatAssoc(a: string, b: string, c: string, d: string)
    ensures a + (b + c + d) == a + b + c + d
  {
  }

  /** Sorting two pieces that are out of order swaps them. */
  lemma SortTwoSwapped(a: string, b: string)
    requires LexLe(b, a) && !LexLe(a, b)
    ensures Sort([a, b], LexLe) == [b, a]
  {
    assert [a, b][1..] == [b];
    assert Sort([b], LexLe) == [b] by {
      assert [b][1..] == [];
    }
    assert Insert(a, [b], LexLe) == [b] + Insert(a, [], LexLe);
  }

  /** Two pieces joined with a comma. */
  lemma JoinTwo(a: string, b: string)
    ensures Join([a, b], ',') == a + [','] + b
  {
    assert [a, b][..1] == [a];
  }

  /** Two pieces out of order come out swapped. */
  lemma CanonicalOfTwo(a: string, b: string, s: string)
    requires ',' !in a && ',' !in b && s == a + [','] + b
    requires LexLe(b, a) && !LexLe(a, b)
    ensures Canonical(QStr(s)) == b + [','] + a
  {
    SplitAtSep(a, b, ',');
    SplitNoSep(a, ',');
    SplitNoSep(b, ',');
    assert Pieces(QStr(s)) == [a, b];
    SortTwoSwapped(a, b);
    JoinTwo(b, a);
  }

  /** A parameter holding two comma-separated values out of order. */
  lemma TwoValuesKey(q: Query, k: string, a: string, b: string)
    requires k in FilterKeys && q == map[k := QStr(a + [','] + b)]
    requires ',' !in a && ',' !in b
    requires LexLe(b, a) && !LexLe(a, b)
    ensures HierarchyCacheKey(q) == Prefix + k + ":" + b + [','] + a
  {
    var v := QStr(a + [','] + b);
    TwoValuesCanonical(a, b, v);
    SingleParamKey(q, k, v);
    AppendTwo(Prefix + k + ":", b, a);
  }

  /** The canonical text of an out-of-order pair, and that it contributes. */
  lemma TwoValuesCanonical(a: string, b: string, v: QValue)
    requires ',' !in a && ',' !in b && v == QStr(a + [','] + b)
    requires LexLe(b, a) && !LexLe(a, b)
    ensures QTruthy(v) && |Canonical(v)| > 0 && Canonical(v) == b + [','] + a
  {
    CanonicalOfTwo(a, b, v.s);
  }

  lemma AppendTwo(x: string, b: string, a: string)
    ensures x + (b + [','] + a) == x + b + [','] + a
  {
  }

  /** Values are sorted as strings, so `10` comes before `9`. */
  lemma StringOrderOfValues(q: Query)
    requires q == map["clusterId" := QStr("9,10")]
    ensures HierarchyCacheKey(q) == Prefix + "clusterId" + ":" + "10" + "," + "9"
  {
    assert !LexLe("9", "10") && LexLe("10", "9");
    assert "9,10" == "9" + [','] + "10";
    TwoValuesKey(q, "clusterId", "9", "10");
  }

  /** Pieces already in order are kept as they are, duplicates included. */
  lemma CanonicalSorted(xs: seq<string>)
    requires SortedBy(xs, LexLe)
    ensures Canonical(QArr(xs)) == Join(xs, ',')
  {
    LexTotalOrder();
    SortSorted(xs, LexLe);
  }

  /** Three pieces joined with commas. */
  lemma JoinThree(a: string, b: string, c: string)
    ensures Join([a, b, c], ',') == a + [','] + b + [','] + c
  {
    assert [a, b, c][..2] == [a, b];
    JoinTwo(a, b);
  }

  /** The key of one array parameter whose values are already in order. */
  lemma SortedArrayKey(q: Query, k: string, xs: seq<string>)
    requires k in FilterKeys && q == map[k := QArr(xs)]
    requires SortedBy(xs, LexLe) && Join(xs, ',') != ""
    ensures HierarchyCacheKey(q) == Prefix + k + ":" + Join(xs, ',')
  {
    CanonicalSorted(xs);
    SingleParamKey(q, k, QArr(xs));
  }

  /** Duplicated values are not removed: a repeated value changes the key. */
  lemma DuplicatesKept(q1: Query, q2: Query, k: string, x: string, y: string)
    requires k in FilterKeys && LexLe(x, y) && x != ""
    requires q1 == map[k := QArr([x, x, y])]
    requires q2 == map[k := QArr([x, y])]
    ensures HierarchyCacheKey(q1) != HierarchyCacheKey(q2)
  {
    LexTotal(x, x);
    SortedThree(x, x, y, LexLe);
    SortedTwo(x, y, LexLe);
    JoinThree(x, x, y);
    JoinTwo(x, y);
    SortedArrayKey(q1, k, [x, x, y]);
    SortedArrayKey(q2, k, [x, y]);
  }
}
