/** The booth reports: for every cluster, Lok Sabha, sambhag, jila, Vidhan
    Sabha, mandal or sakha, the booths under it and their number. They come
    in three shapes: a list of Vidhan Sabha ids per ancestor matched against
    every booth row (cluster, Lok Sabha), a per-ancestor query over the
    ancestor's distinct Vidhan Sabhas (sambhag, jila), and the grouped push
    of the other admin reports (Vidhan Sabha, mandal, sakha). All seven go
    through the response cache for a day. */
module AdminBooths {
  import opened Seqs
  import opened Sorting
  import opened JsText
  import opened Tables
  import opened Grouping
  import opened Admin
  import opened Cache

  /** `{BT_ID, BT_NM}` */
  function BoothItem(b: VdRow): Item { Item(b.btId, b.btName) }

  /** The running `totalBooths += booths.length`. */
  function AddCount<A, I>(t: int, g: Group<A, I>): int { t + |g.items| }

  function GroupSize<A, I>(g: Group<A, I>): int { |g.items| }

  /** Adding up the group sizes one group at a time gives their sum. */
  lemma {:induction false} FoldAddCount<A, I>(gs: seq<Group<A, I>>)
    ensures Fold(gs, AddCount, 0) == Sum(Map(gs, GroupSize))
    ensures Fold(gs, AddCount, 0) >= 0
    decreases |gs|
  {
    if gs != [] {
      var pre := gs[..|gs| - 1];
      FoldAddCount(pre);
      SumMapSnoc(gs, GroupSize);
    }
  }

  /** A report whose total is the running sum of its groups' sizes. */
  function SummedReport<A, J, I>(lb: Labels<A, J>, groups: seq<Group<A, I>>): (r: Report<A, J, I>)
    ensures r.totalColumnCount == Sum(Map(r.countData, CountValue))
    ensures r.totalLevelCount == |groups| && r.detailedData == groups
    ensures |r.countData| == |groups|
    ensures forall i :: 0 <= i < |groups| ==> r.countData[i] == CountOf(lb)(groups[i])
  {
    FoldAddCount(groups);
    var r := Report(|groups|, Fold(groups, AddCount, 0), Map(groups, CountOf(lb)), groups);
    assert Map(r.countData, CountValue) == Map(groups, GroupSize);
    r
  }

  // ---------------------------------------------------------------------
  // Cluster and Lok Sabha: a Vidhan Sabha list per ancestor

  /** `{id, name, vids}` kept per ancestor id in a plain object. */
  datatype VidList = VidList(id: int, name: Option<string>, vids: seq<int>)

  function VidListId(v: VidList): int { v.id }
  function VidListName(v: VidList): Option<string> { v.name }
  /** The object key `for...in` hands back: the id as a string. */
  function VidListKey(v: VidList): string { IntToString(v.id) }

  function VidOf(r: CluRow): int { IdOf(r.vidId) }

  /** `if (!map[id]) map[id] = {id, name, vids: []}; map[id].vids.push(VID_ID)`. */
  function VidListStep(col: CluRow -> Option<int>, name: CluRow -> Option<string>): (Option<VidList>, CluRow) -> Option<VidList>
  {
    (s: Option<VidList>, r: CluRow) =>
      if s.None? then Some(VidList(IdOf(col(r)), name(r), [VidOf(r)]))
      else Some(s.value.(vids := s.value.vids + [VidOf(r)]))
  }

  /** The entry left by a run of rows: the first row's id and name, and
      every row's Vidhan Sabha in order. */
  lemma {:induction false} FoldVidList(cs: seq<CluRow>, col: CluRow -> Option<int>, name: CluRow -> Option<string>)
    ensures Fold(cs, VidListStep(col, name), None).None? <==> cs == []
    ensures cs != [] ==>
              Fold(cs, VidListStep(col, name), None) == Some(VidList(IdOf(col(cs[0])), name(cs[0]), Map(cs, VidOf)))
    decreases |cs|
  {
    if cs != [] {
      var pre := cs[..|cs| - 1];
      var c := cs[|cs| - 1];
      FoldVidList(pre, col, name);
      MapSnoc(pre, c, VidOf);
      assert cs == pre + [c];
      assert Fold(cs, VidListStep(col, name), None) == VidListStep(col, name)(Fold(pre, VidListStep(col, name), None), c);
      if pre != [] {
        assert pre[0] == cs[0];
      } else {
        assert Map(cs, VidOf) == [VidOf(c)];
      }
    }
  }

  /** The object filled from `rows`, keyed on the ancestor id. */
  function VidMap(rows: seq<CluRow>, col: CluRow -> Option<int>, name: CluRow -> Option<string>): map<Option<int>, Option<VidList>>
  {
    GroupFold(rows, col, VidListStep(col, name), None)
  }

  /** The object's keys in the order they were first set. */
  function InsertionKeys(rows: seq<CluRow>, col: CluRow -> Option<int>): seq<int>
  {
    Map(Distinct(Map(rows, col)), IdOf)
  }

  /** `map[k]` for a key `for...in` visits. */
  function VidListAt(m: map<Option<int>, Option<VidList>>): int -> VidList
  {
    (k: int) => var s := StateAt(m, Some(k), None); if s.Some? then s.value else VidList(k, None, [])
  }

  /** The entries in `for...in` order. */
  function VidLists(rows: seq<CluRow>, col: CluRow -> Option<int>, name: CluRow -> Option<string>): seq<VidList>
  {
    Map(ForInOrder(InsertionKeys(rows, col)), VidListAt(VidMap(rows, col, name)))
  }

  /** The rows of ancestor `k`. */
  function RowsOf(rows: seq<CluRow>, col: CluRow -> Option<int>, k: int): seq<CluRow>
  {
    Filter(rows, HasKey(col, Some(k)))
  }

  /** The entry of an ancestor id that occurs in the rows holds that id,
      the name of its first row and the Vidhan Sabhas of all its rows. */
  lemma VidListAtKey(rows: seq<CluRow>, col: CluRow -> Option<int>, name: CluRow -> Option<string>, k: int)
    requires Some(k) in Map(rows, col)
    ensures RowsOf(rows, col, k) != []
    ensures VidListAt(VidMap(rows, col, name))(k)
            == VidList(k, name(RowsOf(rows, col, k)[0]), Map(RowsOf(rows, col, k), VidOf))
  {
    var f := RowsOf(rows, col, k);
    var j :| 0 <= j < |rows| && col(rows[j]) == Some(k);
    assert rows[j] in f;
    GroupFoldState(rows, col, VidListStep(col, name), None, Some(k));
    FoldVidList(f, col, name);
    assert f[0] in f;
  }

  /** The rows carry non-null ancestor ids (the query filters NULL out). */
  ghost predicate IdsSet(rows: seq<CluRow>, col: CluRow -> Option<int>)
  {
    forall r :: r in rows ==> col(r).Some?
  }

  /** Every key `for...in` visits occurs among the rows' ids. */
  lemma ForInKeysOccur(rows: seq<CluRow>, col: CluRow -> Option<int>, k: int)
    requires IdsSet(rows, col)
    requires k in ForInOrder(InsertionKeys(rows, col))
    ensures Some(k) in Map(rows, col)
  {
    ForInMember(InsertionKeys(rows, col), k);
    var d := Distinct(Map(rows, col));
    var i :| 0 <= i < |d| && IdOf(d[i]) == k;
    IdInRows(rows, col, d[i]);
  }

  /** A value of the distinct ids is some row's id, and a set one. */
  lemma IdInRows(rows: seq<CluRow>, col: CluRow -> Option<int>, o: Option<int>)
    requires IdsSet(rows, col)
    requires o in Distinct(Map(rows, col))
    ensures o.Some? && o in Map(rows, col)
  {
    assert o in Map(rows, col);
    var j :| 0 <= j < |rows| && col(rows[j]) == o;
    assert rows[j] in rows;
  }

  /** The listed entries carry exactly the keys in `for...in` order, and
      each is its ancestor's first name with all its Vidhan Sabhas. */
  lemma VidListsFacts(rows: seq<CluRow>, col: CluRow -> Option<int>, name: CluRow -> Option<string>)
    requires IdsSet(rows, col)
    ensures Map(VidLists(rows, col, name), VidListId) == ForInOrder(InsertionKeys(rows, col))
    ensures forall v :: v in VidLists(rows, col, name) ==>
              RowsOf(rows, col, v.id) != [] &&
              v == VidList(v.id, name(RowsOf(rows, col, v.id)[0]), Map(RowsOf(rows, col, v.id), VidOf))
  {
    var keys := ForInOrder(InsertionKeys(rows, col));
    var vs := VidLists(rows, col, name);
    forall i | 0 <= i < |keys|
      ensures vs[i].id == keys[i]
      ensures RowsOf(rows, col, keys[i]) != []
      ensures vs[i] == VidList(keys[i], name(RowsOf(rows, col, keys[i])[0]), Map(RowsOf(rows, col, keys[i]), VidOf))
    {
      ForInKeysOccur(rows, col, keys[i]);
      VidListAtKey(rows, col, name, keys[i]);
    }
  }

  /** `vids.includes(b.VID_ID)`: a NULL VID_ID is in no list. */
  function VidIn(vids: seq<int>): VdRow -> bool
  {
    (b: VdRow) => InList(b.vidId, vids)
  }

  /** `boothRows.filter(b => vids.includes(b.VID_ID)).map(...)`. */
  function BoothsOf(booths: seq<VdRow>): VidList -> seq<Item>
  {
    (v: VidList) => Map(Filter(booths, VidIn(v.vids)), BoothItem)
  }

  function BoothGroup<A>(items: A -> seq<Item>): A -> Group<A, Item>
  {
    (a: A) => Group(a, items(a))
  }

  function GroupId(g: Group<VidList, Item>): int { g.ancestor.id }

  /** The groups of a report that lists `ancs` carry their ids in order. */
  lemma ListedIds<J>(r: Report<VidList, J, Item>, lb: Labels<VidList, J>, ancs: seq<VidList>, items: VidList -> seq<Item>)
    requires Lists(r, lb, ancs, items)
    ensures Map(r.detailedData, GroupId) == Map(ancs, VidListId)
  {
    forall i | 0 <= i < |ancs| ensures Map(r.detailedData, GroupId)[i] == Map(ancs, VidListId)[i] {
      assert r.detailedData[i].ancestor == ancs[i];
    }
  }

  /** A summed report over one group per ancestor lists each ancestor's
      items. */
  lemma SummedLists<A, J>(lb: Labels<A, J>, ancs: seq<A>, items: A -> seq<Item>)
    ensures Lists(SummedReport(lb, Map(ancs, BoothGroup(items))), lb, ancs, items)
  {
    var groups := Map(ancs, BoothGroup(items));
    var r := SummedReport(lb, groups);
    forall i | 0 <= i < |ancs|
      ensures r.detailedData[i] == Group(ancs[i], items(ancs[i]))
      ensures r.countData[i] == CountEntry(lb.id(ancs[i]), lb.name(ancs[i]), |items(ancs[i])|, lb.level, lb.column)
    {
      assert groups[i] == Group(ancs[i], items(ancs[i]));
    }
  }

  /** `SELECT VID_ID, BT_ID, BT_NM FROM vddata WHERE BT_ID IS NOT NULL`. */
  function BoothRows(db: Db): seq<VdRow> { Filter(db.vd, NotNull(VBt)) }

  /** The Vidhan Sabha list shape: one group per visited key with every
      booth row whose Vidhan Sabha is in the list; the total is the running
      sum of the counts. */
  function VidListReport<J>(rows: seq<CluRow>, col: CluRow -> Option<int>, name: CluRow -> Option<string>,
                            booths: seq<VdRow>, lb: Labels<VidList, J>): (r: Report<VidList, J, Item>)
    ensures Lists(r, lb, VidLists(rows, col, name), BoothsOf(booths))
    ensures r.totalColumnCount == Sum(Map(r.countData, CountValue))
  {
    var ancs := VidLists(rows, col, name);
    SummedLists(lb, ancs, BoothsOf(booths));
    SummedReport(lb, Map(ancs, BoothGroup(BoothsOf(booths))))
  }

  function ClusNmVid(r: CluRow): (Option<int>, Option<string>, Option<int>) { (r.clusId, r.clusName, r.vidId) }
  function LokNmVid(r: CluRow): (Option<int>, Option<string>, Option<int>) { (r.lokId, r.lokName, r.vidId) }

  /** `SELECT DISTINCT CLUS_ID, CLUS_NM, VID_ID FROM cludata WHERE CLUS_ID IS
      NOT NULL AND VID_ID IS NOT NULL`. */
  function ClusterVidRows(db: Db): (r: seq<CluRow>)
    ensures IdsSet(r, CClus)
    ensures forall x :: x in r ==> x in db.clu && x.vidId.Some?
  {
    var r := DistinctBy(Filter(db.clu, BothSet(ClusVid)), ClusNmVid);
    forall x | x in r ensures CClus(x).Some? && x in db.clu && x.vidId.Some? {
      assert x in Filter(db.clu, BothSet(ClusVid));
      assert BothSet(ClusVid)(x);
      assert ClusVid(x).0.Some? && ClusVid(x).1.Some?;
    }
    r
  }

  /** The same over LOK_ID. */
  function LokVidRows(db: Db): (r: seq<CluRow>)
    ensures IdsSet(r, CLok)
    ensures forall x :: x in r ==> x in db.clu && x.vidId.Some?
  {
    var r := DistinctBy(Filter(db.clu, BothSet(LokVid)), LokNmVid);
    forall x | x in r ensures CLok(x).Some? && x in db.clu && x.vidId.Some? {
      assert x in Filter(db.clu, BothSet(LokVid));
      assert BothSet(LokVid)(x);
      assert LokVid(x).0.Some? && LokVid(x).1.Some?;
    }
    r
  }

  function ClusterBoothLabels(): Labels<VidList, int> { Labels(VidListId, VidListName, "cluster", "booth") }
  function LokBoothLabels(): Labels<VidList, string> { Labels(VidListKey, VidListName, "lok", "booth") }

  /** `getBoothInCluster` on a cache miss. The clusters come in `for...in`
      order of their ids, each once; each holds the first row's name and
      lists every booth row of its Vidhan Sabhas; the total is the sum of
      the counts. */
  function BoothInCluster(db: Db): (r: Report<VidList, int, Item>)
    ensures Lists(r, ClusterBoothLabels(), VidLists(ClusterVidRows(db), CClus, CClusNm), BoothsOf(BoothRows(db)))
    ensures Map(r.detailedData, GroupId) == ForInOrder(InsertionKeys(ClusterVidRows(db), CClus))
    ensures r.totalColumnCount == Sum(Map(r.countData, CountValue))
  {
    var rows := ClusterVidRows(db);
    var r := VidListReport(rows, CClus, CClusNm, BoothRows(db), ClusterBoothLabels());
    VidListsFacts(rows, CClus, CClusNm);
    ListedIds(r, ClusterBoothLabels(), VidLists(rows, CClus, CClusNm), BoothsOf(BoothRows(db)));
    r
  }

  /** `getBoothInLokSabha` on a cache miss: as for clusters, but the
      `countData` id is the object key, the Lok Sabha id as a string. */
  function BoothInLokSabha(db: Db): (r: Report<VidList, string, Item>)
    ensures Lists(r, LokBoothLabels(), VidLists(LokVidRows(db), CLok, CLokNm), BoothsOf(BoothRows(db)))
    ensures Map(r.detailedData, GroupId) == ForInOrder(InsertionKeys(LokVidRows(db), CLok))
    ensures r.totalColumnCount == Sum(Map(r.countData, CountValue))
  {
    var rows := LokVidRows(db);
    var r := VidListReport(rows, CLok, CLokNm, BoothRows(db), LokBoothLabels());
    VidListsFacts(rows, CLok, CLokNm);
    ListedIds(r, LokBoothLabels(), VidLists(rows, CLok, CLokNm), BoothsOf(BoothRows(db)));
    r
  }

  /** The Vidhan Sabhas of an ancestor's rows. */
  lemma VidsOfRows(rows: seq<CluRow>, col: CluRow -> Option<int>, k: int, x: int)
    ensures x in Map(RowsOf(rows, col, k), VidOf) <==> exists r :: r in rows && col(r) == Some(k) && VidOf(r) == x
  {
    var f := RowsOf(rows, col, k);
    if x in Map(f, VidOf) {
      var i :| 0 <= i < |f| && VidOf(f[i]) == x;
      assert f[i] in f;
    }
    if r :| r in rows && col(r) == Some(k) && VidOf(r) == x {
      assert r in f;
      var i :| 0 <= i < |f| && f[i] == r;
      assert Map(f, VidOf)[i] == x;
    }
  }

  /** Every `cludata` row with both ids has its (CLUS_ID, CLUS_NM, VID_ID)
      among the distinct rows. */
  lemma ClusterRowKept(db: Db, r: CluRow)
    requires r in db.clu && r.clusId.Some? && r.vidId.Some?
    ensures exists q :: q in ClusterVidRows(db) && ClusNmVid(q) == ClusNmVid(r)
  {
    var fc := Filter(db.clu, BothSet(ClusVid));
    assert ClusVid(r).0.Some? && ClusVid(r).1.Some?;
    assert BothSet(ClusVid)(r);
    assert r in fc;
    var i :| 0 <= i < |fc| && fc[i] == r;
    assert ClusNmVid(r) in KeysOf(fc, ClusNmVid);
    var d := ClusterVidRows(db);
    var j :| 0 <= j < |d| && ClusNmVid(d[j]) == ClusNmVid(r);
    assert d[j] in d;
  }

  /** The Vidhan Sabhas in a cluster's list are exactly those some
      `cludata` row pairs with the cluster, and its name is one of the
      cluster's names; repeats in the list change nothing, since only
      membership is tested. */
  lemma ClusterVidListContents(db: Db, v: VidList)
    requires v in VidLists(ClusterVidRows(db), CClus, CClusNm)
    ensures forall x :: x in v.vids <==> exists r :: r in db.clu && r.clusId == Some(v.id) && r.vidId == Some(x)
    ensures exists r :: r in db.clu && r.clusId == Some(v.id) && r.clusName == v.name
  {
    var rows := ClusterVidRows(db);
    VidListsFacts(rows, CClus, CClusNm);
    var f := RowsOf(rows, CClus, v.id);
    assert f[0] in f;
    forall x ensures x in v.vids <==> exists r :: r in db.clu && r.clusId == Some(v.id) && r.vidId == Some(x) {
      VidsOfRows(rows, CClus, v.id, x);
      if r :| r in db.clu && r.clusId == Some(v.id) && r.vidId == Some(x) {
        ClusterRowKept(db, r);
      }
    }
  }

  /** A booth row whose Vidhan Sabha is in the list is listed. */
  lemma BoothInList(booths: seq<VdRow>, vids: seq<int>, b: VdRow)
    requires b in booths && InList(b.vidId, vids)
    ensures BoothItem(b) in Map(Filter(booths, VidIn(vids)), BoothItem)
  {
    var f := Filter(booths, VidIn(vids));
    assert VidIn(vids)(b);
    assert b in f;
    var i :| 0 <= i < |f| && f[i] == b;
    assert Map(f, BoothItem)[i] == BoothItem(b);
  }

  /** A Vidhan Sabha a `cludata` row puts in the cluster is in its list. */
  lemma ClusterVidListed(db: Db, v: VidList, r: CluRow)
    requires v in VidLists(ClusterVidRows(db), CClus, CClusNm)
    requires r in db.clu && r.clusId == Some(v.id) && r.vidId.Some?
    ensures r.vidId.value in v.vids
  {
    ClusterVidListContents(db, v);
    var x := r.vidId.value;
    assert r.vidId == Some(x);
  }

  /** A booth row is listed under a cluster when a `cludata` row puts its
      Vidhan Sabha in the cluster. */
  lemma ClusterBoothListed(db: Db, v: VidList, b: VdRow, r: CluRow)
    requires v in VidLists(ClusterVidRows(db), CClus, CClusNm)
    requires b in db.vd && b.btId.Some?
    requires r in db.clu && r.clusId == Some(v.id) && r.vidId.Some? && r.vidId == b.vidId
    ensures BoothItem(b) in BoothsOf(BoothRows(db))(v)
  {
    ClusterVidListed(db, v, r);
    assert InList(b.vidId, v.vids);
    BoothRowKept(db, b);
    BoothInList(BoothRows(db), v.vids, b);
    assert BoothsOf(BoothRows(db))(v) == Map(Filter(BoothRows(db), VidIn(v.vids)), BoothItem);
  }

  lemma BoothRowKept(db: Db, b: VdRow)
    requires b in db.vd && b.btId.Some?
    ensures b in BoothRows(db)
  {
    assert NotNull(VBt)(b);
  }

  // ---------------------------------------------------------------------
  // Sambhag and jila: one query per ancestor over its Vidhan Sabhas

  function SamNm(r: SmRow): (Option<int>, Option<string>) { (r.samId, r.samName) }
  function JilaNm(r: SmRow): (Option<int>, Option<string>) { (r.jilaId, r.jilaName) }

  /** `SELECT DISTINCT id, name FROM smdata WHERE id IS NOT NULL`: an id
      with two spellings of its name is listed twice. */
  function DistinctNamed(sm: seq<SmRow>, col: SmRow -> Option<int>, name: SmRow -> Option<string>,
                         pair: SmRow -> (Option<int>, Option<string>)): (r: seq<Anc>)
    requires forall x :: pair(x) == (col(x), name(x))
    ensures NoDup(r)
    ensures forall a :: a in r <==> exists x :: x in sm && col(x).Some? && a == Anc(col(x), name(x))
  {
    var d := DistinctBy(Filter(sm, NotNull(col)), pair);
    var r := Map(d, AncOf(col, name));
    DistinctNamedNoDup(d, col, name, pair);
    forall a ensures a in r <==> exists x :: x in sm && col(x).Some? && a == Anc(col(x), name(x)) {
      if a in r {
        DistinctNamedOccurs(sm, col, name, pair, a);
      }
      if x :| x in sm && col(x).Some? && a == Anc(col(x), name(x)) {
        DistinctNamedListed(sm, col, name, pair, x);
      }
    }
    r
  }

  lemma DistinctNamedNoDup(d: seq<SmRow>, col: SmRow -> Option<int>, name: SmRow -> Option<string>,
                           pair: SmRow -> (Option<int>, Option<string>))
    requires forall x :: pair(x) == (col(x), name(x))
    requires UniqueKeys(d, pair)
    ensures NoDup(Map(d, AncOf(col, name)))
  {
    var r := Map(d, AncOf(col, name));
    forall i, j | 0 <= i < j < |r| ensures r[i] != r[j] {
      assert pair(d[i]) != pair(d[j]);
    }
  }

  lemma DistinctNamedOccurs(sm: seq<SmRow>, col: SmRow -> Option<int>, name: SmRow -> Option<string>,
                            pair: SmRow -> (Option<int>, Option<string>), a: Anc)
    requires a in Map(DistinctBy(Filter(sm, NotNull(col)), pair), AncOf(col, name))
    ensures exists x :: x in sm && col(x).Some? && a == Anc(col(x), name(x))
  {
    var d := DistinctBy(Filter(sm, NotNull(col)), pair);
    var r := Map(d, AncOf(col, name));
    var i :| 0 <= i < |r| && r[i] == a;
    assert d[i] in d;
    assert d[i] in Filter(sm, NotNull(col));
  }

  lemma DistinctNamedListed(sm: seq<SmRow>, col: SmRow -> Option<int>, name: SmRow -> Option<string>,
                            pair: SmRow -> (Option<int>, Option<string>), x: SmRow)
    requires forall y :: pair(y) == (col(y), name(y))
    requires x in sm && col(x).Some?
    ensures Anc(col(x), name(x)) in Map(DistinctBy(Filter(sm, NotNull(col)), pair), AncOf(col, name))
  {
    var fs := Filter(sm, NotNull(col));
    var d := DistinctBy(fs, pair);
    assert x in fs;
    var i :| 0 <= i < |fs| && fs[i] == x;
    assert pair(x) in KeysOf(fs, pair);
    assert pair(x) in KeysOf(d, pair);
    var j :| 0 <= j < |d| && pair(d[j]) == pair(x);
    assert Map(d, AncOf(col, name))[j] == Anc(col(x), name(x));
  }

  function SambhagEntries(db: Db): seq<Anc> { DistinctNamed(db.sm, SSam, SSamNm, SamNm) }
  function JilaEntries(db: Db): seq<Anc> { DistinctNamed(db.sm, SJila, SJilaNm, JilaNm) }

  /** `WHERE col = id AND VID_ID IS NOT NULL` (`=` never matches NULL). */
  function AtWithVid(col: SmRow -> Option<int>, id: Option<int>): SmRow -> bool
  {
    (r: SmRow) => id.Some? && col(r) == id && r.vidId.Some?
  }

  /** `SELECT DISTINCT VID_ID FROM smdata WHERE col = id AND VID_ID IS NOT NULL`. */
  function VidsUnder(sm: seq<SmRow>, col: SmRow -> Option<int>, id: Option<int>): (r: seq<int>)
    ensures forall x :: x in r <==> exists s :: s in sm && id.Some? && col(s) == id && s.vidId == Some(x)
  {
    var f := Filter(sm, AtWithVid(col, id));
    var d := Distinct(Map(f, SVid));
    var r := Map(d, IdOf);
    forall x ensures x in r <==> exists s :: s in sm && id.Some? && col(s) == id && s.vidId == Some(x) {
      if x in r {
        VidUnderOccurs(sm, col, id, x);
      }
      if s :| s in sm && id.Some? && col(s) == id && s.vidId == Some(x) {
        VidUnderListed(sm, col, id, s);
      }
    }
    r
  }

  lemma VidUnderOccurs(sm: seq<SmRow>, col: SmRow -> Option<int>, id: Option<int>, x: int)
    requires x in Map(Distinct(Map(Filter(sm, AtWithVid(col, id)), SVid)), IdOf)
    ensures exists s :: s in sm && id.Some? && col(s) == id && s.vidId == Some(x)
  {
    var f := Filter(sm, AtWithVid(col, id));
    var d := Distinct(Map(f, SVid));
    var i :| 0 <= i < |d| && IdOf(d[i]) == x;
    assert d[i] in Map(f, SVid);
    var j :| 0 <= j < |f| && SVid(f[j]) == d[i];
    assert f[j] in f;
  }

  lemma VidUnderListed(sm: seq<SmRow>, col: SmRow -> Option<int>, id: Option<int>, s: SmRow)
    requires s in sm && id.Some? && col(s) == id && s.vidId.Some?
    ensures s.vidId.value in Map(Distinct(Map(Filter(sm, AtWithVid(col, id)), SVid)), IdOf)
  {
    var f := Filter(sm, AtWithVid(col, id));
    var d := Distinct(Map(f, SVid));
    assert s in f;
    var j :| 0 <= j < |f| && f[j] == s;
    assert SVid(f[j]) in Map(f, SVid);
    var i :| 0 <= i < |d| && d[i] == s.vidId;
    assert Map(d, IdOf)[i] == s.vidId.value;
  }

  function BtNm(r: VdRow): (Option<int>, Option<string>) { (r.btId, r.btName) }

  /** `VID_ID IN (list) AND BT_ID IS NOT NULL`. */
  function BoothInVids(vids: seq<int>): VdRow -> bool
  {
    (b: VdRow) => InList(b.vidId, vids) && b.btId.Some?
  }

  /** `SELECT DISTINCT BT_ID, BT_NM FROM vddata WHERE VID_ID IN (list) AND
      BT_ID IS NOT NULL`. */
  function BoothsInVids(vd: seq<VdRow>, vids: seq<int>): (r: seq<Item>)
    ensures |r| == |KeysOf(Filter(vd, BoothInVids(vids)), BtNm)|
  {
    var d := DistinctBy(Filter(vd, BoothInVids(vids)), BtNm);
    DistinctByCard(Filter(vd, BoothInVids(vids)), BtNm);
    Map(d, BoothItem)
  }

  /** An ancestor's booths: none when it has no Vidhan Sabha (the `IN`
      list would be empty), otherwise the distinct booths of its Vidhan
      Sabhas. */
  function BoothsUnder(db: Db, col: SmRow -> Option<int>): Anc -> seq<Item>
  {
    (a: Anc) =>
      var vids := VidsUnder(db.sm, col, a.id);
      if |vids| == 0 then [] else BoothsInVids(db.vd, vids)
  }

  /** The empty-list guard only avoids an empty `IN ()`: the general query
      would give the same empty list. */
  lemma EmptyVidListGuard(db: Db, col: SmRow -> Option<int>, a: Anc)
    ensures BoothsUnder(db, col)(a) == BoothsInVids(db.vd, VidsUnder(db.sm, col, a.id))
  {
    var vids := VidsUnder(db.sm, col, a.id);
    if |vids| == 0 {
      FilterNone(db.vd, BoothInVids(vids));
    }
  }

  /** `getBoothInSambhag` on a cache miss: one entry per distinct (SAM_ID,
      SAM_NM); its count is the number of distinct (BT_ID, BT_NM) among the
      booth rows of its Vidhan Sabhas; the total is the sum of the counts. */
  function BoothInSambhag(db: Db): (r: Report<Anc, Option<int>, Item>)
    ensures Lists(r, AncLabels("sambhag", "booth"), SambhagEntries(db), BoothsUnder(db, SSam))
    ensures r.totalColumnCount == Sum(Map(r.countData, CountValue))
    ensures forall i :: 0 <= i < |r.countData| ==>
              r.countData[i].count == |KeysOf(Filter(db.vd, BoothInVids(VidsUnder(db.sm, SSam, r.countData[i].id))), BtNm)|
  {
    var ancs := SambhagEntries(db);
    var r := SummedReport(AncLabels("sambhag", "booth"), Map(ancs, BoothGroup(BoothsUnder(db, SSam))));
    SummedLists(AncLabels("sambhag", "booth"), ancs, BoothsUnder(db, SSam));
    forall i | 0 <= i < |ancs|
      ensures |BoothsUnder(db, SSam)(ancs[i])| == |KeysOf(Filter(db.vd, BoothInVids(VidsUnder(db.sm, SSam, ancs[i].id))), BtNm)|
    {
      EmptyVidListGuard(db, SSam, ancs[i]);
    }
    r
  }

  /** `getBoothInJila` on a cache miss: the same over (JILA_ID, JILA_NM). */
  function BoothInJila(db: Db): (r: Report<Anc, Option<int>, Item>)
    ensures Lists(r, AncLabels("jila", "booth"), JilaEntries(db), BoothsUnder(db, SJila))
    ensures r.totalColumnCount == Sum(Map(r.countData, CountValue))
    ensures forall i :: 0 <= i < |r.countData| ==>
              r.countData[i].count == |KeysOf(Filter(db.vd, BoothInVids(VidsUnder(db.sm, SJila, r.countData[i].id))), BtNm)|
  {
    var ancs := JilaEntries(db);
    var r := SummedReport(AncLabels("jila", "booth"), Map(ancs, BoothGroup(BoothsUnder(db, SJila))));
    SummedLists(AncLabels("jila", "booth"), ancs, BoothsUnder(db, SJila));
    forall i | 0 <= i < |ancs|
      ensures |BoothsUnder(db, SJila)(ancs[i])| == |KeysOf(Filter(db.vd, BoothInVids(VidsUnder(db.sm, SJila, ancs[i].id))), BtNm)|
    {
      EmptyVidListGuard(db, SJila, ancs[i]);
    }
    r
  }

  // ---------------------------------------------------------------------
  // Vidhan Sabha, mandal and sakha: grouped push

  function VidBt(r: VdRow): (Option<int>, Option<int>) { (r.vidId, r.btId) }

  /** `getBoothInVidhanSabha` on a cache miss: `GROUP BY VID_ID, BT_ID`
      over the booth rows, pushed under VID_ID. */
  function BoothInVidhanSabha(db: Db): (r: Report<Anc, Option<int>, Item>)
    ensures r.totalColumnCount == |DistinctBy(BoothRows(db), VidBt)|
    ensures Lists(r, AncLabels("vid", "booth"), VidhanSabhas(db),
                  PushedUnder(DistinctBy(BoothRows(db), VidBt), AncId, VVid, BoothItem))
    ensures forall i :: 0 <= i < |r.countData| ==>
              r.countData[i].count == |KeysOf(Filter(BoothRows(db), HasKey(VVid, r.countData[i].id)), VidBt)|
  {
    GroupedPush(VidhanSabhas(db), BoothRows(db), VidBt, VVid, AncId, BoothItem, AncLabels("vid", "booth"))
  }

  /** `{VID_ID, BT_ID, BT_NM}` */
  function VidBoothItem(r: VdRow): Item { VidItem(r.vidId, r.btId, r.btName) }

  function VidManBt(r: VdRow): (Option<int>, Option<int>, Option<int>) { (r.vidId, r.manId, r.btId) }
  function VidSakBt(r: VdRow): (Option<int>, Option<int>, Option<int>) { (r.vidId, r.sakId, r.btId) }

  /** `${row.VID_ID}_${row.sakhaId}` */
  function RowSakhaKey(r: VdRow): string { UnderscoreKey(r.vidId, r.sakId) }

  /** A named booth with its Vidhan Sabha. */
  predicate NamedBooth(r: VdRow) { r.vidId.Some? && r.btId.Some? && NonBlankName(r.btName) }
  predicate MandalBoothRow(r: VdRow) { r.manId.Some? && NamedBooth(r) }
  predicate SakhaBoothRow(r: VdRow) { r.sakId.Some? && NamedBooth(r) }

  /** `getBoothInMandal` on a cache miss: `GROUP BY VID_ID, MAN_ID, BT_ID`
      over the named booths, pushed under `${VID_ID}_${MAN_ID}`. */
  function BoothInMandal(db: Db): (r: Report<PairAnc, string, Item>)
    ensures r.totalColumnCount == |DistinctBy(Filter(db.vd, MandalBoothRow), VidManBt)|
    ensures Lists(r, PairLabels("mandal", "booth"), Mandals(db),
                  PushedUnder(DistinctBy(Filter(db.vd, MandalBoothRow), VidManBt), PairKey, RowMandalKey, VidBoothItem))
    ensures forall i :: 0 <= i < |r.countData| ==>
              r.countData[i].count == |KeysOf(Filter(Filter(db.vd, MandalBoothRow), HasKey(RowMandalKey, r.countData[i].id)), VidManBt)|
  {
    GroupedPush(Mandals(db), Filter(db.vd, MandalBoothRow), VidManBt, RowMandalKey, PairKey, VidBoothItem, PairLabels("mandal", "booth"))
  }

  /** `getBoothInSakha` on a cache miss: `GROUP BY VID_ID, SAK_ID, BT_ID`
      over the named booths, pushed under `${VID_ID}_${SAK_ID}`. */
  function BoothInSakha(db: Db): (r: Report<PairAnc, string, Item>)
    ensures r.totalColumnCount == |DistinctBy(Filter(db.vd, SakhaBoothRow), VidSakBt)|
    ensures Lists(r, PairLabels("sakha", "booth"), Sakhas(db),
                  PushedUnder(DistinctBy(Filter(db.vd, SakhaBoothRow), VidSakBt), PairKey, RowSakhaKey, VidBoothItem))
    ensures forall i :: 0 <= i < |r.countData| ==>
              r.countData[i].count == |KeysOf(Filter(Filter(db.vd, SakhaBoothRow), HasKey(RowSakhaKey, r.countData[i].id)), VidSakBt)|
  {
    GroupedPush(Sakhas(db), Filter(db.vd, SakhaBoothRow), VidSakBt, RowSakhaKey, PairKey, VidBoothItem, PairLabels("sakha", "booth"))
  }

  /** Every named booth row with a mandal finds its mandal among the
      grouped mandals, so the mandal counts add up to the total. */
  lemma MandalBoothsAddUp(db: Db)
    ensures var r := BoothInMandal(db); Sum(Map(r.countData, CountValue)) == r.totalColumnCount
  {
    var src := Filter(db.vd, MandalBoothRow);
    forall x | x in src ensures RowMandalKey(x) in Map(Mandals(db), PairKey) {
      MandalListed(db, x);
    }
    GroupedPushSum(Mandals(db), src, VidManBt, RowMandalKey, PairKey, VidBoothItem, PairLabels("mandal", "booth"));
  }

  /** A `vddata` row with a mandal has its `${VID_ID}_${MAN_ID}` among the
      grouped mandals. */
  lemma MandalListed(db: Db, x: VdRow)
    requires x in db.vd && x.manId.Some?
    ensures RowMandalKey(x) in Map(Mandals(db), PairKey)
  {
    var f := Filter(db.vd, NotNull(VMan));
    var d := DistinctBy(f, VidMan);
    assert x in f;
    var i :| 0 <= i < |f| && f[i] == x;
    assert VidMan(x) in KeysOf(d, VidMan);
    var j :| 0 <= j < |d| && VidMan(d[j]) == VidMan(x);
    assert PairKey(Map(d, MandalAnc)[j]) == RowMandalKey(x);
  }

  /** The sakha and Vidhan Sabha booth counts never exceed the total: a
      booth whose sakha has no non-blank name in any row, or whose Vidhan
      Sabha is not in `cludata`, is counted in the total only. */
  lemma BoothReportsBounded(db: Db)
    ensures var r := BoothInSakha(db); Sum(Map(r.countData, CountValue)) <= r.totalColumnCount
    ensures var r := BoothInVidhanSabha(db); Sum(Map(r.countData, CountValue)) <= r.totalColumnCount
  {
    GroupedPushSum(Sakhas(db), Filter(db.vd, SakhaBoothRow), VidSakBt, RowSakhaKey, PairKey, VidBoothItem, PairLabels("sakha", "booth"));
    GroupedPushSum(VidhanSabhas(db), BoothRows(db), VidBt, VVid, AncId, BoothItem, AncLabels("vid", "booth"));
  }

  /** A sakha whose every row has a blank name lists none of its booths,
      yet they are in `totalColumnCount`. */
  lemma UnnamedSakhaBoothsUnlisted(db: Db, x: VdRow)
    requires SakhaBoothRow(x) && x in db.vd
    requires forall y :: y in db.vd && VidSak(y) == VidSak(x) ==> !NonBlankName(y.sakName)
    ensures RowSakhaKey(x) !in Map(Sakhas(db), PairKey)
    ensures VidSakBt(x) in KeysOf(DistinctBy(Filter(db.vd, SakhaBoothRow), VidSakBt), VidSakBt)
  {
    UnnamedSakhaUnlisted(db, x);
    BoothRowCounted(db, x);
  }

  lemma UnnamedSakhaUnlisted(db: Db, x: VdRow)
    requires x in db.vd
    requires forall y :: y in db.vd && VidSak(y) == VidSak(x) ==> !NonBlankName(y.sakName)
    ensures RowSakhaKey(x) !in Map(Sakhas(db), PairKey)
  {
    var f := Filter(db.vd, SakhaNamed);
    var d := DistinctBy(f, VidSak);
    var m := Map(Sakhas(db), PairKey);
    assert Sakhas(db) == Map(d, SakhaAnc);
    forall j | 0 <= j < |m| ensures m[j] != RowSakhaKey(x) {
      var y := d[j];
      assert y in f;
      assert m[j] == UnderscoreKey(y.vidId, y.sakId);
      UnderscoreKeyInjective(y.vidId, y.sakId, x.vidId, x.sakId);
    }
  }

  lemma BoothRowCounted(db: Db, x: VdRow)
    requires SakhaBoothRow(x) && x in db.vd
    ensures VidSakBt(x) in KeysOf(DistinctBy(Filter(db.vd, SakhaBoothRow), VidSakBt), VidSakBt)
  {
    var s := Filter(db.vd, SakhaBoothRow);
    assert x in s;
    var i :| 0 <= i < |s| && s[i] == x;
    assert VidSakBt(s[i]) in KeysOf(s, VidSakBt);
  }

  // ---------------------------------------------------------------------
  // The cache wrapper

  datatype BoothLevel = ClusterLevel | SambhagLevel | LokLevel | VidhanSabhaLevel | JilaLevel | MandalLevel | SakhaLevel

  /** The cache key of each booth report. */
  function BoothCacheKey(l: BoothLevel): string
  {
    match l
    case ClusterLevel => "cluster:booth:all"
    case SambhagLevel => "getBoothInSambhag:all"
    case LokLevel => "getBoothInLocsabha:all"
    case VidhanSabhaLevel => "getBoothInVidhanSabha:all"
    case JilaLevel => "getBoothInJila:all"
    case MandalLevel => "getBoothInMandal:all"
    case SakhaLevel => "getBoothInSakha:all"
  }

  /** One day, in seconds. */
  const BoothTtl: nat := 86400

  /** A booth report of any shape. */
  datatype BoothReport =
    | ByIdList(byId: Report<VidList, int, Item>)
    | ByKeyList(byKey: Report<VidList, string, Item>)
    | ByAncestor(byAnc: Report<Anc, Option<int>, Item>)
    | ByPair(byPair: Report<PairAnc, string, Item>)

  function ComputeBoothReport(l: BoothLevel, db: Db): BoothReport
  {
    match l
    case ClusterLevel => ByIdList(BoothInCluster(db))
    case SambhagLevel => ByAncestor(BoothInSambhag(db))
    case LokLevel => ByKeyList(BoothInLokSabha(db))
    case VidhanSabhaLevel => ByAncestor(BoothInVidhanSabha(db))
    case JilaLevel => ByAncestor(BoothInJila(db))
    case MandalLevel => ByPair(BoothInMandal(db))
    case SakhaLevel => ByPair(BoothInSakha(db))
  }

  /** A booth report request: the cached body with `cached: true` while
      it is fresh, else the report computed from the tables, stored for a
      day. */
  function ServeBoothReport(c: Store<BoothReport>, l: BoothLevel, db: Db, now: int): (res: (Served<BoothReport>, Store<BoothReport>))
    ensures Get(c, BoothCacheKey(l), now).Some? ==>
              res == (Served(Some(true), c[BoothCacheKey(l)].value), c)
    ensures Get(c, BoothCacheKey(l), now).None? ==>
              res.0 == Served(None, ComputeBoothReport(l, db)) &&
              Get(res.1, BoothCacheKey(l), now + BoothTtl - 1) == Some(ComputeBoothReport(l, db))
    ensures forall k :: k != BoothCacheKey(l) ==> Get(res.1, k, now) == Get(c, k, now)
  {
    var res := ReadThrough(c, BoothCacheKey(l), BoothTtl, now, ComputeBoothReport(l, db));
    forall k | k != BoothCacheKey(l) ensures Get(res.1, k, now) == Get(c, k, now) {
      if Get(c, BoothCacheKey(l), now).None? {
        GetPutOther(c, BoothCacheKey(l), ComputeBoothReport(l, db), BoothTtl, now, k, now);
      }
    }
    res
  }

  /** The seven reports have seven different cache keys, so serving one
      never answers another. */
  lemma BoothCacheKeysDistinct(l1: BoothLevel, l2: BoothLevel)
    ensures BoothCacheKey(l1) == BoothCacheKey(l2) <==> l1 == l2
  {
    if l1 != l2 {
      var k1, k2 := BoothCacheKey(l1), BoothCacheKey(l2);
      assert k1[0] != k2[0] || k1[3] != k2[3] || k1[10] != k2[10] || |k1| != |k2|;
    }
  }

  /** Within a day of a miss the same report is served again from the
      cache, even if the tables changed meanwhile. */
  lemma BoothReportStaleForADay(c: Store<BoothReport>, l: BoothLevel, db: Db, db2: Db, now: int, later: int)
    requires Get(c, BoothCacheKey(l), now).None?
    requires now <= later < now + BoothTtl
    ensures var c2 := ServeBoothReport(c, l, db, now).1;
            ServeBoothReport(c2, l, db2, later).0 == Served(Some(true), ComputeBoothReport(l, db))
  {
    ReadThroughThenHit(c, BoothCacheKey(l), BoothTtl, now, later, ComputeBoothReport(l, db), ComputeBoothReport(l, db2));
  }
}
