/** The ancestor → children aggregation the admin reports are built from.
    One pass over the child rows fills a dictionary keyed on the ancestor
    id (`dict[key] = step(dict[key] || init, row)`); the ancestor list is
    then mapped to groups (the ancestor with its child list) and to
    `countData` entries `{id, name, count, level, column}`. */
module Grouping {
  import opened Seqs

  /** `dict[k] || init`: the state kept for key `k`, or the initial one. */
  function StateAt<K, S>(m: map<K, S>, k: K, init: S): S
  {
    if k in m then m[k] else init
  }

  /** The state left by feeding the rows of `cs`, in order, to `step`. */
  function Fold<C, S>(cs: seq<C>, step: (S, C) -> S, init: S): S
    decreases |cs|
  {
    if cs == [] then init else step(Fold(cs[..|cs| - 1], step, init), cs[|cs| - 1])
  }

  /** The rows whose key is `k`. */
  function HasKey<C, K(==)>(key: C -> K, k: K): C -> bool
  {
    (c: C) => key(c) == k
  }

  /** `rows.forEach(c => { dict[key(c)] = step(dict[key(c)] || init, c) })`. */
  function GroupFold<C, K, S>(cs: seq<C>, key: C -> K, step: (S, C) -> S, init: S): (m: map<K, S>)
    ensures m.Keys == KeysOf(cs, key)
    decreases |cs|
  {
    if cs == [] then map[]
    else
      var pre := cs[..|cs| - 1];
      var c := cs[|cs| - 1];
      assert cs == pre + [c];
      KeysOfSnoc(pre, c, key);
      var m := GroupFold(pre, key, step, init);
      m[key(c) := step(StateAt(m, key(c), init), c)]
  }

  /** One pass over all rows leaves under every key what a pass over that
      key's own rows would. */
  lemma {:induction false} GroupFoldState<C(!new), K, S>(cs: seq<C>, key: C -> K, step: (S, C) -> S, init: S, k: K)
    ensures StateAt(GroupFold(cs, key, step, init), k, init) == Fold(Filter(cs, HasKey(key, k)), step, init)
    decreases |cs|
  {
    if cs != [] {
      var pre := cs[..|cs| - 1];
      var c := cs[|cs| - 1];
      GroupFoldState(pre, key, step, init, k);
      var f := Filter(pre, HasKey(key, k));
      if key(c) == k {
        assert Filter(cs, HasKey(key, k)) == f + [c];
        assert (f + [c])[..|f + [c]| - 1] == f;
      } else {
        assert Filter(cs, HasKey(key, k)) == f;
      }
    }
  }

  // ---------------------------------------------------------------------
  // The three per-key steps

  /** `list.push(proj(c))`. */
  function PushStep<C, I>(proj: C -> I): (seq<I>, C) -> seq<I>
  {
    (l: seq<I>, c: C) => l + [proj(c)]
  }

  /** Pushing every row lists every row. */
  lemma {:induction false} FoldPush<C, I>(cs: seq<C>, proj: C -> I)
    ensures Fold(cs, PushStep(proj), []) == Map(cs, proj)
    decreases |cs|
  {
    if cs != [] {
      FoldPush(cs[..|cs| - 1], proj);
      assert Map(cs, proj) == Map(cs[..|cs| - 1], proj) + [proj(cs[|cs| - 1])];
    }
  }

  /** `if (!list.some(x => dk(x) === dk(proj(c)))) list.push(proj(c))`. */
  function SomeStep<C, I, D(==)>(proj: C -> I, dk: I -> D): (seq<I>, C) -> seq<I>
  {
    (l: seq<I>, c: C) => if exists i :: 0 <= i < |l| && dk(l[i]) == dk(proj(c)) then l else l + [proj(c)]
  }

  /** The `some` check keeps the first item per `dk` value. */
  lemma {:induction false} FoldSome<C, I(!new), D>(cs: seq<C>, proj: C -> I, dk: I -> D)
    ensures Fold(cs, SomeStep(proj, dk), []) == DistinctBy(Map(cs, proj), dk)
    decreases |cs|
  {
    if cs != [] {
      var pre := cs[..|cs| - 1];
      FoldSome(pre, proj, dk);
      var ms := Map(cs, proj);
      assert ms[..|ms| - 1] == Map(pre, proj);
      var l := DistinctBy(Map(pre, proj), dk);
      var x := proj(cs[|cs| - 1]);
      assert (exists i :: 0 <= i < |l| && dk(l[i]) == dk(x)) <==> dk(x) in KeysOf(l, dk);
    }
  }

  /** On rows whose `dk` values are already distinct the check drops nothing. */
  lemma {:induction false} DistinctByUnique<T(!new), K>(s: seq<T>, key: T -> K)
    requires UniqueKeys(s, key)
    ensures DistinctBy(s, key) == s
    decreases |s|
  {
    if s != [] {
      var pre := s[..|s| - 1];
      var x := s[|s| - 1];
      assert UniqueKeys(pre, key);
      DistinctByUnique(pre, key);
      assert key(x) !in KeysOf(pre, key);
      assert s == pre + [x];
    }
  }

  /** An entry of a JavaScript `Map`. */
  datatype Slot<U, V> = Slot(key: U, value: V)

  function SlotKey<U, V>(e: Slot<U, V>): U { e.key }

  /** `m.set(u, v)` on a `Map` kept as its entries in insertion order: an
      existing key keeps its position and takes the new value, a new key
      goes last. */
  function MapSet<U(==), V>(l: seq<Slot<U, V>>, u: U, v: V): (r: seq<Slot<U, V>>)
    ensures u in Map(l, SlotKey) ==> Map(r, SlotKey) == Map(l, SlotKey)
    ensures u !in Map(l, SlotKey) ==> Map(r, SlotKey) == Map(l, SlotKey) + [u]
    ensures NoDup(Map(l, SlotKey)) ==> forall e :: e in r ==> (if e.key == u then e.value == v else e in l)
    decreases |l|
  {
    if l == [] then [Slot(u, v)]
    else if l[0].key == u then
      HeadKeyOnce(l, u);
      MapCons(Slot(u, v), l[1..]);
      [Slot(u, v)] + l[1..]
    else
      var t := MapSet(l[1..], u, v);
      MapSetBehind(l, u, v, t);
      [l[0]] + t
  }

  /** `set` on a key behind the first entry leaves that entry in front. */
  lemma MapSetBehind<U, V>(l: seq<Slot<U, V>>, u: U, v: V, t: seq<Slot<U, V>>)
    requires l != [] && l[0].key != u
    requires u in Map(l[1..], SlotKey) ==> Map(t, SlotKey) == Map(l[1..], SlotKey)
    requires u !in Map(l[1..], SlotKey) ==> Map(t, SlotKey) == Map(l[1..], SlotKey) + [u]
    requires NoDup(Map(l[1..], SlotKey)) ==> forall e :: e in t ==> (if e.key == u then e.value == v else e in l[1..])
    ensures u in Map(l, SlotKey) ==> Map([l[0]] + t, SlotKey) == Map(l, SlotKey)
    ensures u !in Map(l, SlotKey) ==> Map([l[0]] + t, SlotKey) == Map(l, SlotKey) + [u]
    ensures NoDup(Map(l, SlotKey)) ==> forall e :: e in [l[0]] + t ==> (if e.key == u then e.value == v else e in l)
  {
    MapCons(l[0], l[1..]);
    NoDupTail(l);
    MapCons(l[0], t);
    var k := Map(l[1..], SlotKey);
    assert u in Map(l, SlotKey) <==> u in k;
    if u !in k {
      AppendAssoc([l[0].key], k, [u]);
    }
    if NoDup(Map(l, SlotKey)) {
      forall e | e in [l[0]] + t ensures if e.key == u then e.value == v else e in l {
        if e != l[0] {
          assert e in t;
        }
      }
    }
  }

  /** The keys of a list with one more entry in front. */
  lemma MapCons<U, V>(e: Slot<U, V>, l: seq<Slot<U, V>>)
    ensures Map([e] + l, SlotKey) == [e.key] + Map(l, SlotKey)
  {
  }

  /** In a duplicate-free `Map` the first key occurs nowhere else. */
  lemma HeadKeyOnce<U, V>(l: seq<Slot<U, V>>, u: U)
    requires l != [] && l[0].key == u
    ensures Map(l, SlotKey) == [u] + Map(l[1..], SlotKey)
    ensures NoDup(Map(l, SlotKey)) ==> forall e :: e in l[1..] ==> e.key != u
  {
    MapCons(l[0], l[1..]);
    assert [l[0]] + l[1..] == l;
    if NoDup(Map(l, SlotKey)) {
      forall e | e in l[1..] ensures e.key != u {
        var j :| 0 <= j < |l[1..]| && l[1..][j] == e;
        assert Map(l, SlotKey)[j + 1] == e.key;
      }
    }
  }

  /** The tail of a duplicate-free `Map` is duplicate-free. */
  lemma NoDupTail<U, V>(l: seq<Slot<U, V>>)
    requires l != []
    ensures Map(l, SlotKey) == [l[0].key] + Map(l[1..], SlotKey)
    ensures NoDup(Map(l, SlotKey)) ==> NoDup(Map(l[1..], SlotKey))
  {
    MapCons(l[0], l[1..]);
    assert [l[0]] + l[1..] == l;
    if NoDup(Map(l, SlotKey)) {
      forall i, j | 0 <= i < j < |l[1..]| ensures Map(l[1..], SlotKey)[i] != Map(l[1..], SlotKey)[j] {
        assert Map(l, SlotKey)[i + 1] != Map(l, SlotKey)[j + 1];
      }
    }
  }

  /** `map.set(uid(c), proj(c))`. */
  function MapSetStep<C, U(==), V>(uid: C -> U, proj: C -> V): (seq<Slot<U, V>>, C) -> seq<Slot<U, V>>
  {
    (l: seq<Slot<U, V>>, c: C) => MapSet(l, uid(c), proj(c))
  }

  /** The row that last set an entry: `value` came from row `i` and no
      later row has the same key. */
  ghost predicate LastSetBy<C, U, V>(cs: seq<C>, uid: C -> U, proj: C -> V, e: Slot<U, V>, i: int)
  {
    && 0 <= i < |cs| && uid(cs[i]) == e.key && proj(cs[i]) == e.value
    && forall j :: i < j < |cs| ==> uid(cs[j]) != e.key
  }

  /** Some row last set the entry `e`. */
  ghost predicate WrittenLast<C, U, V>(cs: seq<C>, uid: C -> U, proj: C -> V, e: Slot<U, V>)
  {
    exists i :: LastSetBy(cs, uid, proj, e, i)
  }

  /** A `Map` filled by `set` has one entry per distinct key, in first-
      insertion order. */
  lemma {:induction false} FoldMapSetKeys<C, U(!new), V>(cs: seq<C>, uid: C -> U, proj: C -> V)
    ensures Map(Fold(cs, MapSetStep(uid, proj), []), SlotKey) == Distinct(Map(cs, uid))
    decreases |cs|
  {
    if cs != [] {
      var pre := cs[..|cs| - 1];
      var c := cs[|cs| - 1];
      FoldMapSetKeys(pre, uid, proj);
      MapLast(cs, uid);
      FoldMapSetSnoc(cs, uid, proj);
      MapSetKeysStep(Fold(pre, MapSetStep(uid, proj), []), Map(pre, uid), uid(c), proj(c));
    }
  }

  /** One `set` extends the key list the way one more row extends the
      distinct keys. */
  lemma MapSetKeysStep<U(!new), V>(l: seq<Slot<U, V>>, ks: seq<U>, u: U, v: V)
    requires Map(l, SlotKey) == Distinct(ks)
    ensures Map(MapSet(l, u, v), SlotKey) == Distinct(ks + [u])
  {
    DistinctSnoc(ks, u);
  }

  /** A `Map` filled by `set` has as many entries as the rows have
      distinct keys. */
  lemma FoldMapSetCount<C, U(!new), V>(cs: seq<C>, uid: C -> U, proj: C -> V)
    ensures |Fold(cs, MapSetStep(uid, proj), [])| == |KeysOf(cs, uid)|
  {
    FoldMapSetKeys(cs, uid, proj);
    MapValues(cs, uid);
  }

  lemma FoldMapSetSnoc<C, U(!new), V>(cs: seq<C>, uid: C -> U, proj: C -> V)
    requires cs != []
    ensures Fold(cs, MapSetStep(uid, proj), []) ==
            MapSet(Fold(cs[..|cs| - 1], MapSetStep(uid, proj), []), uid(cs[|cs| - 1]), proj(cs[|cs| - 1]))
  {
  }

  /** Every entry of a `Map` filled by `set` holds the value of the last
      row with its key. */
  lemma {:induction false} FoldMapSetValues<C, U(!new), V>(cs: seq<C>, uid: C -> U, proj: C -> V)
    ensures forall e :: e in Fold(cs, MapSetStep(uid, proj), []) ==> WrittenLast(cs, uid, proj, e)
    decreases |cs|
  {
    if cs != [] {
      var pre := cs[..|cs| - 1];
      var c := cs[|cs| - 1];
      assert cs == pre + [c];
      FoldMapSetValues(pre, uid, proj);
      FoldMapSetKeys(pre, uid, proj);
      FoldMapSetSnoc(cs, uid, proj);
      var l := Fold(pre, MapSetStep(uid, proj), []);
      var r := MapSet(l, uid(c), proj(c));
      forall e | e in r ensures WrittenLast(cs, uid, proj, e) {
        if e.key == uid(c) {
          LastSetByNew(pre, c, uid, proj);
        } else {
          var i :| LastSetBy(pre, uid, proj, e, i);
          LastSetByOld(pre, c, uid, proj, e, i);
        }
      }
    }
  }

  lemma LastSetByNew<C, U, V>(pre: seq<C>, c: C, uid: C -> U, proj: C -> V)
    ensures LastSetBy(pre + [c], uid, proj, Slot(uid(c), proj(c)), |pre|)
  {
  }

  lemma LastSetByOld<C, U, V>(pre: seq<C>, c: C, uid: C -> U, proj: C -> V, e: Slot<U, V>, i: int)
    requires LastSetBy(pre, uid, proj, e, i) && uid(c) != e.key
    ensures LastSetBy(pre + [c], uid, proj, e, i)
  {
    var cs := pre + [c];
    forall j | i < j < |cs| ensures uid(cs[j]) != e.key {
      if j < |pre| { assert cs[j] == pre[j]; }
    }
  }

  // ---------------------------------------------------------------------
  // Reports

  /** One `detailedData` element: the ancestor with its child list. */
  datatype Group<A, I> = Group(ancestor: A, items: seq<I>)

  /** One `countData` element. */
  datatype CountEntry<J> = CountEntry(id: J, name: Option<string>, count: nat, level: string, column: string)

  datatype Report<A, J, I> = Report(
    totalLevelCount: nat, totalColumnCount: nat,
    countData: seq<CountEntry<J>>, detailedData: seq<Group<A, I>>)

  /** How a report labels its groups: the ancestor's `id` and `name`, and
      the constant `level` and `column`. */
  datatype Labels<!A, J> = Labels(id: A -> J, name: A -> Option<string>, level: string, column: string)

  function CountOf<A, J, I>(lb: Labels<A, J>): Group<A, I> -> CountEntry<J>
  {
    (g: Group<A, I>) => CountEntry(lb.id(g.ancestor), lb.name(g.ancestor), |g.items|, lb.level, lb.column)
  }

  function CountValue<J>(e: CountEntry<J>): int { e.count }

  /** `{ totalLevelCount, totalColumnCount, countData: groups.map(...), detailedData: groups }`. */
  function MakeReport<A, J, I>(lb: Labels<A, J>, levelCount: nat, columnCount: nat, groups: seq<Group<A, I>>): (r: Report<A, J, I>)
    ensures |r.countData| == |groups| && r.detailedData == groups
    ensures forall i :: 0 <= i < |groups| ==>
              r.countData[i].count == |groups[i].items| && r.countData[i].id == lb.id(groups[i].ancestor)
  {
    Report(levelCount, columnCount, Map(groups, CountOf(lb)), groups)
  }

  /** What every report promises: one group and one count entry per
      ancestor row, in the ancestor query's order; each group holds
      `lists(ancestor)` and each count is that list's length. */
  ghost predicate Lists<A, J, I>(r: Report<A, J, I>, lb: Labels<A, J>, ancestors: seq<A>, lists: A -> seq<I>)
  {
    && |r.detailedData| == |ancestors| && |r.countData| == |ancestors|
    && r.totalLevelCount == |ancestors|
    && forall i :: 0 <= i < |ancestors| ==>
         && r.detailedData[i] == Group(ancestors[i], lists(ancestors[i]))
         && r.countData[i] == CountEntry(lb.id(ancestors[i]), lb.name(ancestors[i]), |lists(ancestors[i])|, lb.level, lb.column)
  }

  /** The group of ancestor `a` read from the filled dictionary. */
  function GroupWith<A, K, S, I>(m: map<K, S>, akey: A -> K, init: S, items: S -> seq<I>): A -> Group<A, I>
  {
    (a: A) => Group(a, items(StateAt(m, akey(a), init)))
  }

  /** The child rows with the ancestor's key, projected, in row order. */
  function PushedUnder<A, C(!new), K(==), I>(children: seq<C>, akey: A -> K, ckey: C -> K, proj: C -> I): A -> seq<I>
  {
    (a: A) => Map(Filter(children, HasKey(ckey, akey(a))), proj)
  }

  /** The push variants: every child row is pushed under its key, and the
      ancestors take their lists (`dict[id] || []`). */
  function PushReport<A, C(!new), K(==), I, J>(ancestors: seq<A>, children: seq<C>, akey: A -> K, ckey: C -> K,
                                           proj: C -> I, lb: Labels<A, J>): (r: Report<A, J, I>)
    ensures r.totalColumnCount == |children|
    ensures Lists(r, lb, ancestors, PushedUnder(children, akey, ckey, proj))
  {
    var m := GroupFold(children, ckey, PushStep(proj), []);
    var groups := Map(ancestors, GroupWith(m, akey, [], Id));
    assert forall i :: 0 <= i < |ancestors| ==>
             groups[i] == Group(ancestors[i], PushedUnder(children, akey, ckey, proj)(ancestors[i])) by {
      forall i | 0 <= i < |ancestors|
        ensures groups[i] == Group(ancestors[i], PushedUnder(children, akey, ckey, proj)(ancestors[i]))
      {
        GroupFoldState(children, ckey, PushStep(proj), [], akey(ancestors[i]));
        FoldPush(Filter(children, HasKey(ckey, akey(ancestors[i]))), proj);
      }
    }
    MakeReport(lb, |ancestors|, |children|, groups)
  }

  /** An ancestor no child row points at is still listed, with count 0. */
  lemma EmptyAncestorListed<A, C(!new), K, I, J>(ancestors: seq<A>, children: seq<C>, akey: A -> K, ckey: C -> K,
                                                 proj: C -> I, lb: Labels<A, J>, i: int)
    requires 0 <= i < |ancestors|
    requires forall c :: c in children ==> ckey(c) != akey(ancestors[i])
    ensures var r := PushReport(ancestors, children, akey, ckey, proj, lb);
            r.countData[i].count == 0 && r.detailedData[i] == Group(ancestors[i], [])
            && r.countData[i].id == lb.id(ancestors[i])
  {
    FilterNone(children, HasKey(ckey, akey(ancestors[i])));
  }

  // ---------------------------------------------------------------------
  // Sums of counts

  /** The child rows whose key is one of `ks`. */
  function KeyIn<C, K(==)>(key: C -> K, ks: seq<K>): C -> bool
  {
    (c: C) => key(c) in ks
  }

  function CountUnder<C(!new), K(==)>(children: seq<C>, ckey: C -> K): K -> int
  {
    (k: K) => |Filter(children, HasKey(ckey, k))|
  }

  /** Splitting a filter into two exclusive cases splits its size. */
  lemma {:induction false} FilterSplitCount<T(!new)>(s: seq<T>, p: T -> bool, q: T -> bool, pq: T -> bool)
    requires forall x :: pq(x) == (p(x) || q(x)) && !(p(x) && q(x))
    ensures |Filter(s, pq)| == |Filter(s, p)| + |Filter(s, q)|
    decreases |s|
  {
    if s != [] {
      FilterSplitCount(s[..|s| - 1], p, q, pq);
    }
  }

  /** Counting under distinct keys counts every row with one of them once. */
  lemma {:induction false} CountsOfDistinctKeys<C(!new), K>(children: seq<C>, ckey: C -> K, ks: seq<K>)
    requires NoDup(ks)
    ensures Sum(Map(ks, CountUnder(children, ckey))) == |Filter(children, KeyIn(ckey, ks))|
    decreases |ks|
  {
    if ks == [] {
      FilterNone(children, KeyIn(ckey, ks));
    } else {
      var pre := ks[..|ks| - 1];
      var k := ks[|ks| - 1];
      NoDupSnoc(ks);
      CountsOfDistinctKeys(children, ckey, pre);
      SumMapSnoc(ks, CountUnder(children, ckey));
      FilterSplitCount(children, KeyIn(ckey, pre), HasKey(ckey, k), KeyIn(ckey, ks));
    }
  }

  lemma NoDupSnoc<K>(ks: seq<K>)
    requires NoDup(ks) && ks != []
    ensures NoDup(ks[..|ks| - 1]) && ks[|ks| - 1] !in ks[..|ks| - 1]
    ensures forall x :: x in ks <==> x in ks[..|ks| - 1] || x == ks[|ks| - 1]
  {
    assert ks == ks[..|ks| - 1] + [ks[|ks| - 1]];
  }

  lemma SumMapSnoc<K>(ks: seq<K>, f: K -> int)
    requires ks != []
    ensures Sum(Map(ks, f)) == Sum(Map(ks[..|ks| - 1], f)) + f(ks[|ks| - 1])
  {
    assert Map(ks, f)[..|ks| - 1] == Map(ks[..|ks| - 1], f);
  }

  /** With distinct ancestor ids, the counts of a push report add up to the
      child rows that found their ancestor, so never exceed
      `totalColumnCount`: rows whose key names no ancestor are dropped. */
  lemma PushCountsSum<A, C(!new), K, I, J>(ancestors: seq<A>, children: seq<C>, akey: A -> K, ckey: C -> K,
                                           proj: C -> I, lb: Labels<A, J>)
    requires UniqueKeys(ancestors, akey)
    ensures var r := PushReport(ancestors, children, akey, ckey, proj, lb);
            && Sum(Map(r.countData, CountValue)) == |Filter(children, KeyIn(ckey, Map(ancestors, akey)))|
            && Sum(Map(r.countData, CountValue)) <= r.totalColumnCount
  {
    var r := PushReport(ancestors, children, akey, ckey, proj, lb);
    var ks := Map(ancestors, akey);
    assert Map(r.countData, CountValue) == Map(ks, CountUnder(children, ckey));
    CountsOfDistinctKeys(children, ckey, ks);
  }

  /** When every child row names a listed ancestor, the counts add up to
      exactly `totalColumnCount`. */
  lemma PushCountsComplete<A, C(!new), K, I, J>(ancestors: seq<A>, children: seq<C>, akey: A -> K, ckey: C -> K,
                                                proj: C -> I, lb: Labels<A, J>)
    requires UniqueKeys(ancestors, akey)
    requires forall c :: c in children ==> ckey(c) in Map(ancestors, akey)
    ensures var r := PushReport(ancestors, children, akey, ckey, proj, lb);
            Sum(Map(r.countData, CountValue)) == r.totalColumnCount
  {
    PushCountsSum(ancestors, children, akey, ckey, proj, lb);
    FilterAll(children, KeyIn(ckey, Map(ancestors, akey)));
  }

  // ---------------------------------------------------------------------
  // Counting GROUP BY rows

  /** After `GROUP BY kf`, the rows of one ancestor are as many as the
      distinct `kf` values among that ancestor's source rows, when the
      ancestor column `g` is part of `kf`. */
  lemma GroupedCount<T(!new), K, G>(s: seq<T>, kf: T -> K, g: T -> G, k: G)
    requires forall x, y :: kf(x) == kf(y) ==> g(x) == g(y)
    ensures |Filter(DistinctBy(s, kf), HasKey(g, k))| == |KeysOf(Filter(s, HasKey(g, k)), kf)|
  {
    var d := DistinctBy(s, kf);
    var fd := Filter(d, HasKey(g, k));
    var fs := Filter(s, HasKey(g, k));
    FilterUniqueKeys(d, HasKey(g, k), kf);
    UniqueKeysCard(fd, kf);
    forall v | v in KeysOf(fd, kf) ensures v in KeysOf(fs, kf) {
      var j :| 0 <= j < |fd| && kf(fd[j]) == v;
      assert fd[j] in fs;
      var i :| 0 <= i < |fs| && fs[i] == fd[j];
    }
    forall v | v in KeysOf(fs, kf) ensures v in KeysOf(fd, kf) {
      var i :| 0 <= i < |fs| && kf(fs[i]) == v;
      assert fs[i] in s;
      var i' :| 0 <= i' < |s| && s[i'] == fs[i];
      assert v in KeysOf(s, kf);
      assert v in KeysOf(d, kf);
      var j :| 0 <= j < |d| && kf(d[j]) == v;
      assert d[j] in fd;
      var j' :| 0 <= j' < |fd| && fd[j'] == d[j];
    }
    assert KeysOf(fd, kf) == KeysOf(fs, kf);
  }

  /** The GROUP BY variants: the child query is `src` grouped on `kf`
      (one row per key, the first), and every group row is pushed under
      its ancestor column `g`, which is one of the grouped columns. Each
      ancestor's count is then the number of distinct `kf` keys among its
      own source rows. */
  function GroupedPush<A, T(!new), K(==), G(==), I, J>(ancestors: seq<A>, src: seq<T>, kf: T -> K, g: T -> G,
                                                      akey: A -> G, proj: T -> I, lb: Labels<A, J>): (r: Report<A, J, I>)
    requires forall x, y :: kf(x) == kf(y) ==> g(x) == g(y)
    ensures r.totalColumnCount == |DistinctBy(src, kf)|
    ensures Lists(r, lb, ancestors, PushedUnder(DistinctBy(src, kf), akey, g, proj))
    ensures forall i :: 0 <= i < |ancestors| ==>
              r.countData[i].count == |KeysOf(Filter(src, HasKey(g, akey(ancestors[i]))), kf)|
  {
    var r := PushReport(ancestors, DistinctBy(src, kf), akey, g, proj, lb);
    assert forall i :: 0 <= i < |ancestors| ==>
              r.countData[i].count == |KeysOf(Filter(src, HasKey(g, akey(ancestors[i]))), kf)| by {
      forall i | 0 <= i < |ancestors|
        ensures r.countData[i].count == |KeysOf(Filter(src, HasKey(g, akey(ancestors[i]))), kf)|
      {
        GroupedCount(src, kf, g, akey(ancestors[i]));
      }
    }
    r
  }

  /** With distinct ancestor ids, the counts of a grouped report never
      exceed `totalColumnCount`, and add up to exactly that when every
      source row's ancestor column names a listed ancestor. */
  lemma GroupedPushSum<A, T(!new), K, G, I, J>(ancestors: seq<A>, src: seq<T>, kf: T -> K, g: T -> G,
                                               akey: A -> G, proj: T -> I, lb: Labels<A, J>)
    requires forall x, y :: kf(x) == kf(y) ==> g(x) == g(y)
    requires UniqueKeys(ancestors, akey)
    ensures var r := GroupedPush(ancestors, src, kf, g, akey, proj, lb);
            Sum(Map(r.countData, CountValue)) <= r.totalColumnCount
    ensures (forall x :: x in src ==> g(x) in Map(ancestors, akey)) ==>
            var r := GroupedPush(ancestors, src, kf, g, akey, proj, lb);
            Sum(Map(r.countData, CountValue)) == r.totalColumnCount
  {
    var d := DistinctBy(src, kf);
    PushCountsSum(ancestors, d, akey, g, proj, lb);
    if forall x :: x in src ==> g(x) in Map(ancestors, akey) {
      PushCountsComplete(ancestors, d, akey, g, proj, lb);
    }
  }
}
