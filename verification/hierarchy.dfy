/** The multi-select hierarchy resolver (`getHierarchyDataMultiple`): from
    any combination of selected clusters, sambhags, jilas, Lok Sabhas,
    Vidhan Sabhas, mandals, sakhas and booths it resolves the matching
    Vidhan Sabhas, fetches their mandal → sakha → booth rows, nests them
    under their Lok Sabhas and counts every level. The database is the
    three tables of `Tables`; each Prisma query is a filter, a `distinct`
    and a projection over them. */
module Hierarchy {
  import opened Seqs
  import opened JsText
  import opened Tables
  import opened Cache
  import opened CacheKey

  // ---------------------------------------------------------------------
  // Multi-select parameters

  /** `parseMultiIds(param)`: an absent or empty parameter gives no ids;
      otherwise every piece (array element, or comma-separated part of the
      string) is read with `parseInt` and the pieces that are NaN dropped. */
  function ParseMultiIds(p: Option<QValue>): (r: seq<int>)
    ensures p.None? || p == Some(QStr("")) ==> r == []
    ensures p.Some? ==> r == ParsedPieces(Pieces(p.value))
  {
    match p
    case None => []
    case Some(QArr(xs)) => ParsedPieces(xs)
    case Some(QStr(s)) =>
      if s == "" then EmptyParamNoIds(); [] else ParsedPieces(Split(s, ','))
  }

  /** The empty string splits into one empty piece, which is NaN: the
      explicit empty-string branch agrees with the general one. */
  lemma EmptyParamNoIds()
    ensures ParsedPieces(Split("", ',')) == []
  {
    assert Split("", ',') == [""];
    assert DigitPrefix("", 10) == "";
    assert ParseInt("") == None;
  }

  /** The integers `parseInt` reads from the pieces, NaN pieces dropped. */
  function ParsedPieces(xs: seq<string>): (r: seq<int>)
    ensures |r| <= |xs|
    ensures forall x :: x in r <==> exists i :: 0 <= i < |xs| && ParseInt(xs[i]) == Some(x)
  {
    ParsedOccurs(xs);
    Somes(Map(xs, ParseInt))
  }

  /** An id occurs among the parsed pieces exactly when some piece reads
      as it. */
  lemma ParsedOccurs(xs: seq<string>)
    ensures forall x :: Some(x) in Map(xs, ParseInt) <==> exists i :: 0 <= i < |xs| && ParseInt(xs[i]) == Some(x)
  {
    var m := Map(xs, ParseInt);
    forall x ensures Some(x) in m <==> exists i :: 0 <= i < |xs| && ParseInt(xs[i]) == Some(x) {
      if Some(x) in m {
        var i :| 0 <= i < |m| && m[i] == Some(x);
        assert ParseInt(xs[i]) == Some(x);
      }
      if exists i :: 0 <= i < |xs| && ParseInt(xs[i]) == Some(x) {
        var i :| 0 <= i < |xs| && ParseInt(xs[i]) == Some(x);
        assert m[i] == Some(x);
      }
    }
  }

  /** The decimal texts of some ids parse back to the same ids, in order. */
  lemma ParsedPiecesOfIds(ids: seq<int>)
    ensures ParsedPieces(Map(ids, IntToString)) == ids
  {
    var w := Map(Map(ids, IntToString), ParseInt);
    forall i | 0 <= i < |ids| ensures w[i] == Some(ids[i]) {
      ParseIntRoundTrip(ids[i]);
    }
    SomesAllSome(ids, w);
  }

  /** Ids sent as a repeated parameter come back unchanged, duplicates and
      order included. */
  lemma ParseIdsArrayRoundTrip(ids: seq<int>)
    ensures ParseMultiIds(Some(QArr(Map(ids, IntToString)))) == ids
  {
    ParsedPiecesOfIds(ids);
  }

  /** Ids sent as one comma-separated string come back unchanged. */
  lemma ParseIdsStringRoundTrip(ids: seq<int>)
    requires |ids| >= 1
    ensures ParseMultiIds(Some(QStr(Join(Map(ids, IntToString), ',')))) == ids
  {
    var texts := Map(ids, IntToString);
    assert forall i :: 0 <= i < |texts| ==> ',' !in texts[i];
    SplitJoin(texts, ',');
    ParsedPiecesOfIds(ids);
  }

  // ---------------------------------------------------------------------
  // Filters and the deepest selected level

  /** The eight parsed id lists. */
  datatype Filters = Filters(
    cluster: seq<int>, sambhag: seq<int>, jila: seq<int>, lok: seq<int>,
    vid: seq<int>, man: seq<int>, sakha: seq<int>, bt: seq<int>)

  function Param(q: Query, k: string): Option<QValue>
  {
    if k in q then Some(q[k]) else None
  }

  /** The filters of a request: each parameter through `parseMultiIds`. */
  function ReadFilters(q: Query): Filters
  {
    Filters(
      ParseMultiIds(Param(q, "clusterId")), ParseMultiIds(Param(q, "sambhagId")),
      ParseMultiIds(Param(q, "jilaId")), ParseMultiIds(Param(q, "lokId")),
      ParseMultiIds(Param(q, "vidId")), ParseMultiIds(Param(q, "manId")),
      ParseMultiIds(Param(q, "sakhaId")), ParseMultiIds(Param(q, "btId")))
  }

  /** The eight levels, from the top (cluster) to the bottom (booth). */
  datatype Level = Cluster | Sambhag | Jila | Lok | Vid | Man | Sakha | Bt

  function Depth(l: Level): nat
  {
    match l
    case Cluster => 0 case Sambhag => 1 case Jila => 2 case Lok => 3
    case Vid => 4 case Man => 5 case Sakha => 6 case Bt => 7
  }

  function ListAt(f: Filters, l: Level): seq<int>
  {
    match l
    case Cluster => f.cluster case Sambhag => f.sambhag case Jila => f.jila
    case Lok => f.lok case Vid => f.vid case Man => f.man
    case Sakha => f.sakha case Bt => f.bt
  }

  /** `deepestFilterKey`: the lowest level with a non-empty list, if any. */
  function Deepest(f: Filters): (r: Option<Level>)
    ensures r.None? <==> forall l: Level :: ListAt(f, l) == []
    ensures r.Some? ==> ListAt(f, r.value) != []
    ensures r.Some? ==> forall l: Level :: Depth(l) > Depth(r.value) ==> ListAt(f, l) == []
  {
    var r :=
      if f.bt != [] then Some(Bt)
      else if f.sakha != [] then Some(Sakha)
      else if f.man != [] then Some(Man)
      else if f.vid != [] then Some(Vid)
      else if f.lok != [] then Some(Lok)
      else if f.jila != [] then Some(Jila)
      else if f.sambhag != [] then Some(Sambhag)
      else if f.cluster != [] then Some(Cluster)
      else None;
    DeepestCases(f, r);
    r
  }

  lemma DeepestCases(f: Filters, r: Option<Level>)
    requires r ==
      if f.bt != [] then Some(Bt)
      else if f.sakha != [] then Some(Sakha)
      else if f.man != [] then Some(Man)
      else if f.vid != [] then Some(Vid)
      else if f.lok != [] then Some(Lok)
      else if f.jila != [] then Some(Jila)
      else if f.sambhag != [] then Some(Sambhag)
      else if f.cluster != [] then Some(Cluster)
      else None
    ensures r.None? <==> forall l: Level :: ListAt(f, l) == []
    ensures r.Some? ==> ListAt(f, r.value) != []
    ensures r.Some? ==> forall l: Level :: Depth(l) > Depth(r.value) ==> ListAt(f, l) == []
  {
    if r.None? {
      forall l: Level ensures ListAt(f, l) == [] {
        match l
        case Cluster => case Sambhag => case Jila => case Lok =>
        case Vid => case Man => case Sakha => case Bt =>
      }
    } else {
      assert ListAt(f, r.value) != [];
      forall l: Level | Depth(l) > Depth(r.value) ensures ListAt(f, l) == [] {
        match l
        case Cluster => case Sambhag => case Jila => case Lok =>
        case Vid => case Man => case Sakha => case Bt =>
      }
    }
  }

  /** The one extra condition put on the mandal/sakha/booth query. */
  datatype LeafFilter = NoLeafFilter | ByBooth(ids: seq<int>) | BySakha(ids: seq<int>) | ByMandal(ids: seq<int>)

  /** Only the deepest level's list is applied, and only when that level
      is booth, sakha or mandal. */
  function LeafFilterOf(f: Filters): (r: LeafFilter)
    ensures r.ByBooth? <==> f.bt != []
    ensures r.BySakha? <==> f.bt == [] && f.sakha != []
    ensures r.ByMandal? <==> f.bt == [] && f.sakha == [] && f.man != []
    ensures !r.NoLeafFilter? ==> r.ids == ListAt(f, Deepest(f).value)
  {
    match Deepest(f)
    case Some(Bt) => ByBooth(f.bt)
    case Some(Sakha) => BySakha(f.sakha)
    case Some(Man) => ByMandal(f.man)
    case _ => NoLeafFilter
  }

  predicate LeafFilterAdmits(lf: LeafFilter, r: VdRow)
  {
    match lf
    case NoLeafFilter => true
    case ByBooth(ids) => InList(r.btId, ids)
    case BySakha(ids) => InList(r.sakId, ids)
    case ByMandal(ids) => InList(r.manId, ids)
  }

  // ---------------------------------------------------------------------
  // The four queries

  /** Step 2: an `smdata` row matches the selected sambhags and jilas; an
      empty list places no condition. */
  predicate SmSelected(f: Filters, r: SmRow)
  {
    (f.sambhag != [] ==> InList(r.samId, f.sambhag)) && (f.jila != [] ==> InList(r.jilaId, f.jila))
  }

  function SmVid(r: SmRow): Option<int> { r.vidId }

  function SmMatches(db: Db, f: Filters): seq<SmRow>
  {
    Filter(db.sm, r => SmSelected(f, r))
  }

  /** `vidIdsFromJilaSambhag`: the Vidhan Sabhas of the selected sambhags
      and jilas; nothing is looked up when neither is selected. */
  function DerivedVids(db: Db, f: Filters): (r: seq<int>)
    ensures f.sambhag == [] && f.jila == [] ==> r == []
    ensures f.sambhag != [] || f.jila != [] ==>
      forall v :: v in r <==> exists i :: 0 <= i < |db.sm| && SmSelected(f, db.sm[i]) && db.sm[i].vidId == Some(v)
  {
    if f.sambhag != [] || f.jila != [] then
      var r := Column(DistinctBy(SmMatches(db, f), SmVid), SmVid);
      forall v ensures v in r <==> exists i :: 0 <= i < |db.sm| && SmSelected(f, db.sm[i]) && db.sm[i].vidId == Some(v) {
        KeysOfFilter(db.sm, r => SmSelected(f, r), SmVid, Some(v));
      }
      r
    else []
  }

  /** Steps 3 and 4: a `cludata` row lies under a selected cluster or a
      derived Vidhan Sabha (when either list is non-empty), and under a
      selected Lok Sabha (when that list is non-empty). */
  predicate LokSelected(f: Filters, derived: seq<int>, r: CluRow)
  {
    (f.cluster != [] || derived != [] ==> InList(r.clusId, f.cluster) || InList(r.vidId, derived))
    && (f.lok != [] ==> InList(r.lokId, f.lok))
  }

  function LokKey(r: CluRow): (Option<int>, Option<int>) { (r.lokId, r.clusId) }
  function CluLok(r: CluRow): Option<int> { r.lokId }
  function CluVid(r: CluRow): Option<int> { r.vidId }

  function LokMatches(db: Db, f: Filters, derived: seq<int>): seq<CluRow>
  {
    Filter(db.clu, r => LokSelected(f, derived, r))
  }

  /** `lokDataRaw`: the selected rows, one per (Lok Sabha, cluster) pair. */
  function LokRows(db: Db, f: Filters, derived: seq<int>): (r: seq<CluRow>)
    ensures forall x :: x in r ==> x in db.clu && LokSelected(f, derived, x)
    ensures forall i :: 0 <= i < |db.clu| && LokSelected(f, derived, db.clu[i]) ==> LokKey(db.clu[i]) in KeysOf(r, LokKey)
    ensures UniqueKeys(r, LokKey)
  {
    var r := DistinctBy(LokMatches(db, f, derived), LokKey);
    forall i | 0 <= i < |db.clu| && LokSelected(f, derived, db.clu[i]) ensures LokKey(db.clu[i]) in KeysOf(r, LokKey) {
      KeysOfFilter(db.clu, x => LokSelected(f, derived, x), LokKey, LokKey(db.clu[i]));
    }
    r
  }

  /** `lokIds`: the Lok Sabhas found, NULL dropped. */
  function LokIds(loks: seq<CluRow>): (r: seq<int>)
    ensures forall l :: l in r <==> exists i :: 0 <= i < |loks| && loks[i].lokId == Some(l)
  {
    Column(loks, CluLok)
  }

  /** Step 5: a `cludata` row lies under a found Lok Sabha and, when
      Vidhan Sabhas were selected, under one of them, or else, when
      sambhags or jilas produced some, under one of those. */
  predicate VidSelected(f: Filters, derived: seq<int>, lokIds: seq<int>, r: CluRow)
  {
    InList(r.lokId, lokIds)
    && (if f.vid != [] then InList(r.vidId, f.vid)
        else if derived != [] then InList(r.vidId, derived)
        else true)
  }

  function VidKey(r: CluRow): (Option<int>, Option<int>) { (r.vidId, r.lokId) }

  function VidMatches(db: Db, f: Filters, derived: seq<int>, lokIds: seq<int>): seq<CluRow>
  {
    Filter(db.clu, r => VidSelected(f, derived, lokIds, r))
  }

  /** `vidhanData`: the selected rows, one per (Vidhan Sabha, Lok Sabha) pair. */
  function VidRows(db: Db, f: Filters, derived: seq<int>, lokIds: seq<int>): (r: seq<CluRow>)
    ensures forall x :: x in r ==> x in db.clu && VidSelected(f, derived, lokIds, x)
    ensures forall i :: 0 <= i < |db.clu| && VidSelected(f, derived, lokIds, db.clu[i]) ==> VidKey(db.clu[i]) in KeysOf(r, VidKey)
    ensures UniqueKeys(r, VidKey)
  {
    var r := DistinctBy(VidMatches(db, f, derived, lokIds), VidKey);
    forall i | 0 <= i < |db.clu| && VidSelected(f, derived, lokIds, db.clu[i]) ensures VidKey(db.clu[i]) in KeysOf(r, VidKey) {
      KeysOfFilter(db.clu, x => VidSelected(f, derived, lokIds, x), VidKey, VidKey(db.clu[i]));
    }
    r
  }

  /** `vidIds`. */
  function VidIds(vids: seq<CluRow>): (r: seq<int>)
    ensures forall v :: v in r <==> exists i :: 0 <= i < |vids| && vids[i].vidId == Some(v)
  {
    Column(vids, CluVid)
  }

  /** Step 6: the Vidhan Sabha list, or the sentinel `[-1]` when it is
      empty, so that an empty list does not mean "no condition". */
  function VidListOrSentinel(vidIds: seq<int>): seq<int>
  {
    if vidIds != [] then vidIds else [-1]
  }

  predicate LeafSelected(f: Filters, vidIds: seq<int>, r: VdRow)
  {
    InList(r.vidId, VidListOrSentinel(vidIds)) && LeafFilterAdmits(LeafFilterOf(f), r)
  }

  function LeafKey(r: VdRow): (Option<int>, Option<int>, Option<int>, Option<int>)
  {
    (r.vidId, r.manId, r.sakId, r.btId)
  }

  function LeafMatches(db: Db, f: Filters, vidIds: seq<int>): seq<VdRow>
  {
    Filter(db.vd, r => LeafSelected(f, vidIds, r))
  }

  /** `manSakhaData`: the selected `vddata` rows, one per
      (Vidhan Sabha, mandal, sakha, booth). */
  function LeafRows(db: Db, f: Filters, vidIds: seq<int>): (r: seq<VdRow>)
    ensures forall x :: x in r ==> x in db.vd && LeafSelected(f, vidIds, x)
    ensures forall i :: 0 <= i < |db.vd| && LeafSelected(f, vidIds, db.vd[i]) ==> LeafKey(db.vd[i]) in KeysOf(r, LeafKey)
    ensures UniqueKeys(r, LeafKey)
  {
    var r := DistinctBy(LeafMatches(db, f, vidIds), LeafKey);
    forall i | 0 <= i < |db.vd| && LeafSelected(f, vidIds, db.vd[i]) ensures LeafKey(db.vd[i]) in KeysOf(r, LeafKey) {
      KeysOfFilter(db.vd, x => LeafSelected(f, vidIds, x), LeafKey, LeafKey(db.vd[i]));
    }
    r
  }

  /** With no Vidhan Sabha left, the sentinel matches nothing as long as no
      row carries the id -1. */
  lemma SentinelSelectsNothing(db: Db, f: Filters)
    requires forall i :: 0 <= i < |db.vd| ==> db.vd[i].vidId != Some(-1)
    ensures LeafRows(db, f, []) == []
  {
    forall x | x in db.vd ensures !LeafSelected(f, [], x) {
      var i :| 0 <= i < |db.vd| && db.vd[i] == x;
    }
    FilterNone(db.vd, x => LeafSelected(f, [], x));
  }

  // ---------------------------------------------------------------------
  // Step 7: the Vidhan Sabha → mandal → sakha → booth tree

  /** Rows with a falsy id at any level are skipped. */
  predicate Complete(r: VdRow)
  {
    IdTruthy(r.vidId) && IdTruthy(r.manId) && IdTruthy(r.sakId) && IdTruthy(r.btId)
  }

  /** The rows that enter the tree and the counts. */
  function Grouped(leaf: seq<VdRow>): seq<VdRow>
  {
    Filter(leaf, Complete)
  }

  function VdVid(r: VdRow): int { IdOf(r.vidId) }
  function VdMan(r: VdRow): int { IdOf(r.manId) }
  function VdSak(r: VdRow): int { IdOf(r.sakId) }

  /** `finalVidhanSabhas`: the Vidhan Sabhas with at least one complete row. */
  function FinalVids(leaf: seq<VdRow>): (r: set<int>)
    ensures forall v :: v in r <==> exists i :: 0 <= i < |leaf| && Complete(leaf[i]) && leaf[i].vidId == Some(v)
  {
    var r := KeysOf(Grouped(leaf), VdVid);
    forall v ensures v in r <==> exists i :: 0 <= i < |leaf| && Complete(leaf[i]) && leaf[i].vidId == Some(v) {
      KeysOfFilter(leaf, Complete, VdVid, v);
    }
    r
  }

  function RowsOfVid(g: seq<VdRow>, v: int): seq<VdRow>
  {
    Filter(g, r => VdVid(r) == v)
  }

  function RowsOfMandal(g: seq<VdRow>, v: int, m: int): seq<VdRow>
  {
    Filter(g, r => VdVid(r) == v && VdMan(r) == m)
  }

  function RowsOfSakha(g: seq<VdRow>, v: int, m: int, s: int): seq<VdRow>
  {
    Filter(g, r => VdVid(r) == v && VdMan(r) == m && VdSak(r) == s)
  }

  /** The mandal keys of `hierarchyMap.get(v)`, in insertion order. */
  function MandalIds(g: seq<VdRow>, v: int): (r: seq<int>)
    ensures NoDup(r)
    ensures forall m :: m in r <==> exists i :: 0 <= i < |g| && VdVid(g[i]) == v && VdMan(g[i]) == m
  {
    var rows := RowsOfVid(g, v);
    var r := Distinct(Map(rows, VdMan));
    forall m | m in r ensures exists i :: 0 <= i < |g| && VdVid(g[i]) == v && VdMan(g[i]) == m {
      var j :| 0 <= j < |rows| && VdMan(rows[j]) == m;
      assert rows[j] in g;
    }
    forall m | exists i :: 0 <= i < |g| && VdVid(g[i]) == v && VdMan(g[i]) == m ensures m in r {
      var i :| 0 <= i < |g| && VdVid(g[i]) == v && VdMan(g[i]) == m;
      assert g[i] in rows;
      var j :| 0 <= j < |rows| && rows[j] == g[i];
      assert Map(rows, VdMan)[j] == m;
    }
    r
  }

  /** The sakha keys under mandal `m` of Vidhan Sabha `v`, in insertion order. */
  function SakhaIds(g: seq<VdRow>, v: int, m: int): (r: seq<int>)
    ensures NoDup(r)
    ensures forall s :: s in r <==> exists i :: 0 <= i < |g| && VdVid(g[i]) == v && VdMan(g[i]) == m && VdSak(g[i]) == s
  {
    var rows := RowsOfMandal(g, v, m);
    var r := Distinct(Map(rows, VdSak));
    forall s | s in r ensures exists i :: 0 <= i < |g| && VdVid(g[i]) == v && VdMan(g[i]) == m && VdSak(g[i]) == s {
      var j :| 0 <= j < |rows| && VdSak(rows[j]) == s;
      assert rows[j] in g;
    }
    forall s | exists i :: 0 <= i < |g| && VdVid(g[i]) == v && VdMan(g[i]) == m && VdSak(g[i]) == s ensures s in r {
      var i :| 0 <= i < |g| && VdVid(g[i]) == v && VdMan(g[i]) == m && VdSak(g[i]) == s;
      assert g[i] in rows;
      var j :| 0 <= j < |rows| && rows[j] == g[i];
      assert Map(rows, VdSak)[j] == s;
    }
    r
  }

  /** A booth as pushed into the tree: `{ BT_ID, BT_NM }`. */
  datatype Booth = Booth(btId: int, btName: Option<string>)

  function BoothOf(r: VdRow): Booth { Booth(IdOf(r.btId), r.btName) }

  /** The booths pushed under sakha `s`, in row order. */
  function BoothsOf(g: seq<VdRow>, v: int, m: int, s: int): (r: seq<Booth>)
    ensures forall b :: b in r <==> exists i :: 0 <= i < |g| && VdVid(g[i]) == v && VdMan(g[i]) == m && VdSak(g[i]) == s && BoothOf(g[i]) == b
  {
    var rows := RowsOfSakha(g, v, m, s);
    var r := Map(rows, BoothOf);
    forall b | b in r ensures exists i :: 0 <= i < |g| && VdVid(g[i]) == v && VdMan(g[i]) == m && VdSak(g[i]) == s && BoothOf(g[i]) == b {
      var j :| 0 <= j < |r| && r[j] == b;
      assert rows[j] in g;
    }
    forall b | exists i :: 0 <= i < |g| && VdVid(g[i]) == v && VdMan(g[i]) == m && VdSak(g[i]) == s && BoothOf(g[i]) == b ensures b in r {
      var i :| 0 <= i < |g| && VdVid(g[i]) == v && VdMan(g[i]) == m && VdSak(g[i]) == s && BoothOf(g[i]) == b;
      assert g[i] in rows;
      var j :| 0 <= j < |rows| && rows[j] == g[i];
      assert r[j] == b;
    }
    r
  }

  /** `x?.NAME || null`: a missing row, a NULL name and an empty name all
      give `null`. */
  function NameOrNull(row: Option<VdRow>, name: VdRow -> Option<string>): (r: Option<string>)
    ensures r.Some? <==> row.Some? && name(row.value).Some? && name(row.value).value != ""
    ensures r.Some? ==> r == name(row.value)
  {
    if row.Some? && name(row.value).Some? && name(row.value).value != "" then name(row.value) else None
  }

  function ManNm(r: VdRow): Option<string> { r.manName }
  function SakNm(r: VdRow): Option<string> { r.sakName }

  /** `MAN_NM`: the name on the first fetched row of mandal `m` in Vidhan
      Sabha `v`. */
  function MandalName(leaf: seq<VdRow>, v: int, m: int): (r: Option<string>)
    ensures r.Some? ==> r.value != ""
    ensures r.Some? ==> exists i :: 0 <= i < |leaf| && leaf[i].vidId == Some(v) && leaf[i].manId == Some(m) && leaf[i].manName == r
  {
    NameOrNull(MandalRow(leaf, v, m), ManNm)
  }

  function MandalRow(leaf: seq<VdRow>, v: int, m: int): Option<VdRow>
  {
    First(leaf, (x: VdRow) => x.manId == Some(m) && x.vidId == Some(v))
  }

  /** `SAK_NM` as the handler looks it up: the first fetched row with the
      same sakha and mandal ids, whatever its Vidhan Sabha. */
  function SakhaNameAsWritten(leaf: seq<VdRow>, m: int, s: int): (r: Option<string>)
    ensures r.Some? ==> r.value != ""
    ensures r.Some? ==> exists i :: 0 <= i < |leaf| && leaf[i].manId == Some(m) && leaf[i].sakId == Some(s) && leaf[i].sakName == r
  {
    NameOrNull(SakhaRowAsWritten(leaf, m, s), SakNm)
  }

  function SakhaRowAsWritten(leaf: seq<VdRow>, m: int, s: int): Option<VdRow>
  {
    First(leaf, (x: VdRow) => x.sakId == Some(s) && x.manId == Some(m))
  }

  /** `SAK_NM` looked up within the sakha's own Vidhan Sabha, as `MAN_NM`
      is: the lookup the handler evidently intends. */
  function SakhaName(leaf: seq<VdRow>, v: int, m: int, s: int): (r: Option<string>)
    ensures r.Some? ==> r.value != ""
    ensures r.Some? ==> exists i :: 0 <= i < |leaf| && leaf[i].vidId == Some(v) && leaf[i].manId == Some(m) && leaf[i].sakId == Some(s) && leaf[i].sakName == r
  {
    NameOrNull(SakhaRow(leaf, v, m, s), SakNm)
  }

  function SakhaRow(leaf: seq<VdRow>, v: int, m: int, s: int): Option<VdRow>
  {
    First(leaf, (x: VdRow) => x.sakId == Some(s) && x.manId == Some(m) && x.vidId == Some(v))
  }

  /** When mandal and sakha ids repeat across Vidhan Sabhas, the lookup as
      written labels a sakha of one Vidhan Sabha with the name of the
      other's: below, Vidhan Sabha 2's sakha is shown as "Alpha" although
      its only row names it "Beta". */
  lemma SakhaNameCrossesVidhanSabhas(leaf: seq<VdRow>)
    requires leaf == [VdRow(Some(1), Some(1), None, Some(1), Some("Alpha"), Some(1), None),
                      VdRow(Some(2), Some(1), None, Some(1), Some("Beta"), Some(2), None)]
    ensures SakhaNameAsWritten(leaf, 1, 1) == Some("Alpha")
    ensures SakhaName(leaf, 2, 1, 1) == Some("Beta")
    ensures forall i :: 0 <= i < |leaf| && leaf[i].vidId == Some(2) ==> leaf[i].sakName != Some("Alpha")
  {
    assert leaf[0].vidId != Some(2);
    assert SakhaRow(leaf, 2, 1, 1) == Some(leaf[1]);
  }

  /** The tree itself shows the mislabel: in the rows above, the node of
      sakha 1 under mandal 1 of Vidhan Sabha 2 is named "Alpha". */
  lemma TreeShowsCrossedName(leaf: seq<VdRow>, sn: SakhaNode)
    requires leaf == [VdRow(Some(1), Some(1), None, Some(1), Some("Alpha"), Some(1), None),
                      VdRow(Some(2), Some(1), None, Some(1), Some("Beta"), Some(2), None)]
    requires sn in SakhaNodes(leaf, 2, 1) && sn.sakId == 1
    ensures sn.sakName == Some("Alpha")
  {
    SakhaNodeFacts(leaf, 2, 1, sn);
    SakhaNameCrossesVidhanSabhas(leaf);
  }

  datatype SakhaNode = SakhaNode(sakId: int, sakName: Option<string>, booths: seq<Booth>)
  datatype MandalNode = MandalNode(manId: int, manName: Option<string>, sakhas: seq<SakhaNode>)
  datatype VidNode = VidNode(vidId: int, vidName: Option<string>, mandals: seq<MandalNode>)
  datatype LokNode = LokNode(clusterId: Option<int>, lokId: Option<int>, lokName: Option<string>, vids: seq<VidNode>)

  /** The `sakhas` array of mandal `m` in Vidhan Sabha `v`. */
  function SakhaNodes(leaf: seq<VdRow>, v: int, m: int): seq<SakhaNode>
  {
    Map(SakhaIds(Grouped(leaf), v, m), (s: int) => SakhaNode(s, SakhaNameAsWritten(leaf, m, s), BoothsOf(Grouped(leaf), v, m, s)))
  }

  predicate HasSakhas(n: MandalNode) { |n.sakhas| > 0 }

  function MandalNodeOf(leaf: seq<VdRow>, v: int, m: int): MandalNode
  {
    MandalNode(m, MandalName(leaf, v, m), SakhaNodes(leaf, v, m))
  }

  /** One node per mandal key of Vidhan Sabha `v`. */
  function MandalList(leaf: seq<VdRow>, v: int): seq<MandalNode>
  {
    Map(MandalIds(Grouped(leaf), v), (m: int) => MandalNodeOf(leaf, v, m))
  }

  /** `mandales_sakha_booths` of Vidhan Sabha `v`, mandals without sakhas removed. */
  function MandalNodes(leaf: seq<VdRow>, v: int): seq<MandalNode>
  {
    Filter(MandalList(leaf, v), HasSakhas)
  }

  /** A sakha key always has a booth. */
  lemma SakhaHasBooth(leaf: seq<VdRow>, v: int, m: int, s: int)
    requires s in SakhaIds(Grouped(leaf), v, m)
    ensures |BoothsOf(Grouped(leaf), v, m, s)| > 0
  {
    var g := Grouped(leaf);
    var i :| 0 <= i < |g| && VdVid(g[i]) == v && VdMan(g[i]) == m && VdSak(g[i]) == s;
    assert BoothOf(g[i]) in BoothsOf(g, v, m, s);
  }

  /** Every sakha listed has at least one booth. */
  lemma SakhasHaveBooths(leaf: seq<VdRow>, v: int, m: int)
    ensures forall n :: n in SakhaNodes(leaf, v, m) ==> |n.booths| > 0
  {
    var ids := SakhaIds(Grouped(leaf), v, m);
    forall n | n in SakhaNodes(leaf, v, m) ensures |n.booths| > 0 {
      var j :| 0 <= j < |ids| && SakhaNodes(leaf, v, m)[j] == n;
      assert ids[j] in ids;
      SakhaHasBooth(leaf, v, m, ids[j]);
    }
  }

  /** A mandal key always has a sakha. */
  lemma MandalHasSakha(leaf: seq<VdRow>, v: int, m: int)
    requires m in MandalIds(Grouped(leaf), v)
    ensures HasSakhas(MandalNodeOf(leaf, v, m))
  {
    var g := Grouped(leaf);
    var i :| 0 <= i < |g| && VdVid(g[i]) == v && VdMan(g[i]) == m;
    assert VdSak(g[i]) in SakhaIds(g, v, m);
  }

  /** Every mandal key has at least one sakha, so dropping the mandals
      without sakhas removes nothing. */
  lemma MandalFilterKeepsAll(leaf: seq<VdRow>, v: int)
    ensures MandalNodes(leaf, v) == MandalList(leaf, v)
  {
    var ids := MandalIds(Grouped(leaf), v);
    var l := MandalList(leaf, v);
    forall n | n in l ensures HasSakhas(n) {
      var j :| 0 <= j < |ids| && l[j] == n;
      assert ids[j] in ids;
      MandalHasSakha(leaf, v, ids[j]);
    }
    FilterAll(l, HasSakhas);
  }

  /** A Vidhan Sabha with a complete row always gets mandals, so the
      handler's "has mandals" test on Vidhan Sabhas removes nothing. */
  lemma FinalVidsHaveMandals(leaf: seq<VdRow>, v: int)
    requires v in FinalVids(leaf)
    ensures |MandalNodes(leaf, v)| > 0
  {
    var g := Grouped(leaf);
    var i :| 0 <= i < |leaf| && Complete(leaf[i]) && leaf[i].vidId == Some(v);
    assert leaf[i] in g;
    var k :| 0 <= k < |g| && g[k] == leaf[i];
    assert VdMan(g[k]) in MandalIds(g, v);
    MandalFilterKeepsAll(leaf, v);
  }

  /** `row` comes from a fetched row with these ids. */
  predicate BoothFrom(rows: seq<VdRow>, v: int, m: int, s: int, b: Booth)
  {
    exists i :: 0 <= i < |rows| && rows[i].vidId == Some(v) && rows[i].manId == Some(m)
                && rows[i].sakId == Some(s) && rows[i].btId == Some(b.btId) && rows[i].btName == b.btName
  }

  lemma SakhaNodeFacts(leaf: seq<VdRow>, v: int, m: int, sn: SakhaNode)
    requires sn in SakhaNodes(leaf, v, m)
    ensures sn.booths == BoothsOf(Grouped(leaf), v, m, sn.sakId)
    ensures sn.sakName == SakhaNameAsWritten(leaf, m, sn.sakId)
  {
    var ids := SakhaIds(Grouped(leaf), v, m);
    var k :| 0 <= k < |ids| && SakhaNodes(leaf, v, m)[k] == sn;
  }

  lemma MandalNodeFacts(leaf: seq<VdRow>, v: int, mn: MandalNode)
    requires mn in MandalNodes(leaf, v)
    ensures mn.sakhas == SakhaNodes(leaf, v, mn.manId)
  {
    var ids := MandalIds(Grouped(leaf), v);
    assert mn in MandalList(leaf, v);
    var j :| 0 <= j < |ids| && MandalList(leaf, v)[j] == mn;
  }

  lemma BoothRowFrom(leaf: seq<VdRow>, v: int, m: int, s: int, b: Booth)
    requires b in BoothsOf(Grouped(leaf), v, m, s)
    ensures BoothFrom(leaf, v, m, s, b)
  {
    var g := Grouped(leaf);
    var i :| 0 <= i < |g| && VdVid(g[i]) == v && VdMan(g[i]) == m && VdSak(g[i]) == s && BoothOf(g[i]) == b;
    assert g[i] in leaf;
    var l :| 0 <= l < |leaf| && leaf[l] == g[i];
    assert Complete(leaf[l]);
  }

  /** Every booth under Vidhan Sabha `v` in the tree is a fetched row on
      that exact path. */
  lemma TreeFromRows(leaf: seq<VdRow>, v: int)
    ensures forall mn, sn, b :: mn in MandalNodes(leaf, v) && sn in mn.sakhas && b in sn.booths ==>
              BoothFrom(leaf, v, mn.manId, sn.sakId, b)
  {
    forall mn, sn, b | mn in MandalNodes(leaf, v) && sn in mn.sakhas && b in sn.booths
      ensures BoothFrom(leaf, v, mn.manId, sn.sakId, b)
    {
      MandalNodeFacts(leaf, v, mn);
      SakhaNodeFacts(leaf, v, mn.manId, sn);
      BoothRowFrom(leaf, v, mn.manId, sn.sakId, b);
    }
  }

  // ---------------------------------------------------------------------
  // Step 8: Vidhan Sabhas grouped under their Lok Sabhas

  /** One push into `lokToVidMap`. */
  datatype VidEntry = VidEntry(lokId: Option<int>, node: VidNode)

  /** A Vidhan Sabha row is kept when it has complete rows and mandals. */
  predicate VidKept(leaf: seq<VdRow>, r: CluRow)
  {
    r.vidId.Some? && r.vidId.value in FinalVids(leaf) && |MandalNodes(leaf, r.vidId.value)| > 0
  }

  function VidEntryOf(leaf: seq<VdRow>, r: CluRow): VidEntry
  {
    VidEntry(r.lokId, VidNode(IdOf(r.vidId), r.vidName, MandalNodes(leaf, IdOf(r.vidId))))
  }

  function KeptVids(vids: seq<CluRow>, leaf: seq<VdRow>): seq<CluRow>
  {
    Filter(vids, (r: CluRow) => VidKept(leaf, r))
  }

  /** The pushes into `lokToVidMap`, in `vidhanData` order. */
  function VidEntries(vids: seq<CluRow>, leaf: seq<VdRow>): seq<VidEntry>
  {
    Map(KeptVids(vids, leaf), (r: CluRow) => VidEntryOf(leaf, r))
  }

  /** `lokToVidMap.has(lok)`. */
  predicate HasEntry(entries: seq<VidEntry>, lok: Option<int>)
  {
    exists i :: 0 <= i < |entries| && entries[i].lokId == lok
  }

  function EntryNode(e: VidEntry): VidNode { e.node }

  /** `lokToVidMap.get(lok)`: the nodes pushed under `lok`, in push order. */
  function VidsUnder(entries: seq<VidEntry>, lok: Option<int>): seq<VidNode>
  {
    Map(EntriesOf(entries, lok), EntryNode)
  }

  function EntriesOf(entries: seq<VidEntry>, lok: Option<int>): seq<VidEntry>
  {
    Filter(entries, (e: VidEntry) => e.lokId == lok)
  }

  function LokNodeOf(entries: seq<VidEntry>, r: CluRow): LokNode
  {
    LokNode(r.clusId, r.lokId, r.lokName, VidsUnder(entries, r.lokId))
  }

  /** `finalData`: the Lok Sabha rows that received Vidhan Sabhas. */
  function FinalData(loks: seq<CluRow>, entries: seq<VidEntry>): seq<LokNode>
  {
    Map(LoksWithEntries(loks, entries), (r: CluRow) => LokNodeOf(entries, r))
  }

  function LoksWithEntries(loks: seq<CluRow>, entries: seq<VidEntry>): seq<CluRow>
  {
    Filter(loks, (r: CluRow) => HasEntry(entries, r.lokId))
  }

  /** Every Lok Sabha listed has at least one Vidhan Sabha. */
  lemma LoksHaveVids(loks: seq<CluRow>, entries: seq<VidEntry>)
    ensures forall n :: n in FinalData(loks, entries) ==> |n.vids| > 0
  {
    var kept := LoksWithEntries(loks, entries);
    forall n | n in FinalData(loks, entries) ensures |n.vids| > 0 {
      var j :| 0 <= j < |kept| && FinalData(loks, entries)[j] == n;
      assert kept[j] in kept;
      LokHasVids(entries, kept[j]);
    }
  }

  lemma LokHasVids(entries: seq<VidEntry>, r: CluRow)
    requires HasEntry(entries, r.lokId)
    ensures |LokNodeOf(entries, r).vids| > 0
  {
    var i :| 0 <= i < |entries| && entries[i].lokId == r.lokId;
    assert entries[i] in EntriesOf(entries, r.lokId);
  }

  /** Every Vidhan Sabha listed has at least one mandal. */
  lemma VidsHaveMandals(vids: seq<CluRow>, leaf: seq<VdRow>)
    ensures forall e :: e in VidEntries(vids, leaf) ==> |e.node.mandals| > 0
  {
    var kv := KeptVids(vids, leaf);
    forall e | e in VidEntries(vids, leaf) ensures |e.node.mandals| > 0 {
      var j :| 0 <= j < |kv| && VidEntries(vids, leaf)[j] == e;
      assert kv[j] in kv;
    }
  }

  // ---------------------------------------------------------------------
  // Step 9: the summary counts

  function VdBt(r: VdRow): int { IdOf(r.btId) }

  /** `${VID_ID}-${MAN_ID}` */
  function MandalKey(r: VdRow): string { DashCons(VdVid(r), IntToString(VdMan(r))) }
  /** `${VID_ID}-${MAN_ID}-${SAK_ID}` */
  function SakhaKey(r: VdRow): string { DashCons(VdVid(r), DashCons(VdMan(r), IntToString(VdSak(r)))) }
  /** `${VID_ID}-${MAN_ID}-${SAK_ID}-${BT_ID}` */
  function BoothKey(r: VdRow): string
  {
    DashCons(VdVid(r), DashCons(VdMan(r), DashCons(VdSak(r), IntToString(VdBt(r)))))
  }

  /** The composite keys of two rows agree exactly when their ids do. */
  lemma CompositeKeys(r1: VdRow, r2: VdRow)
    ensures MandalKey(r1) == MandalKey(r2) <==> VdVid(r1) == VdVid(r2) && VdMan(r1) == VdMan(r2)
    ensures SakhaKey(r1) == SakhaKey(r2) <==>
              VdVid(r1) == VdVid(r2) && VdMan(r1) == VdMan(r2) && VdSak(r1) == VdSak(r2)
    ensures BoothKey(r1) == BoothKey(r2) <==>
              VdVid(r1) == VdVid(r2) && VdMan(r1) == VdMan(r2) && VdSak(r1) == VdSak(r2) && VdBt(r1) == VdBt(r2)
  {
    if MandalKey(r1) == MandalKey(r2) {
      DashConsInjective(VdVid(r1), IntToString(VdMan(r1)), VdVid(r2), IntToString(VdMan(r2)));
      IntToStringInjective(VdMan(r1), VdMan(r2));
    }
    if SakhaKey(r1) == SakhaKey(r2) {
      DashConsInjective(VdVid(r1), DashCons(VdMan(r1), IntToString(VdSak(r1))),
                        VdVid(r2), DashCons(VdMan(r2), IntToString(VdSak(r2))));
      DashConsInjective(VdMan(r1), IntToString(VdSak(r1)), VdMan(r2), IntToString(VdSak(r2)));
      IntToStringInjective(VdSak(r1), VdSak(r2));
    }
    if BoothKey(r1) == BoothKey(r2) {
      DashConsInjective(VdVid(r1), DashCons(VdMan(r1), DashCons(VdSak(r1), IntToString(VdBt(r1)))),
                        VdVid(r2), DashCons(VdMan(r2), DashCons(VdSak(r2), IntToString(VdBt(r2)))));
      DashConsInjective(VdMan(r1), DashCons(VdSak(r1), IntToString(VdBt(r1))),
                        VdMan(r2), DashCons(VdSak(r2), IntToString(VdBt(r2))));
      DashConsInjective(VdSak(r1), IntToString(VdBt(r1)), VdSak(r2), IntToString(VdBt(r2)));
      IntToStringInjective(VdBt(r1), VdBt(r2));
    }
  }

  /** The summary. `sambhag` and `jila` are absent from the early-exit
      answer. */
  datatype Summary = Summary(
    cluster: nat, sambhag: Option<nat>, jila: Option<nat>, lokSabha: nat,
    vidhanSabha: nat, mandal: nat, sakha: nat, booth: nat)

  function NodeClus(n: LokNode): Option<int> { n.clusterId }
  function NodeLok(n: LokNode): Option<int> { n.lokId }
  function SmSam(r: SmRow): Option<int> { r.samId }
  function SmJila(r: SmRow): Option<int> { r.jilaId }
  function SamJilaKey(r: SmRow): (Option<int>, Option<int>) { (r.samId, r.jilaId) }

  /** `finalSmData`: the distinct (sambhag, jila) pairs of the final
      Vidhan Sabhas. */
  function FinalSmRows(db: Db, fv: set<int>): seq<SmRow>
  {
    DistinctBy(Filter(db.sm, (r: SmRow) => r.vidId.Some? && r.vidId.value in fv), SamJilaKey)
  }

  function Summarize(db: Db, leaf: seq<VdRow>, data: seq<LokNode>): Summary
  {
    var g := Grouped(leaf);
    var fv := FinalVids(leaf);
    var sm := FinalSmRows(db, fv);
    Summary(
      |KeysOf(data, NodeClus)|,
      Some(if |fv| > 0 then |KeysOf(sm, SmSam)| else 0),
      Some(if |fv| > 0 then |KeysOf(sm, SmJila)| else 0),
      |KeysOf(data, NodeLok)|,
      |fv|,
      |KeysOf(g, MandalKey)|, |KeysOf(g, SakhaKey)|, |KeysOf(g, BoothKey)|)
  }

  /** Each level is counted by distinct id paths, so the counts can only
      grow going down: every mandal has a Vidhan Sabha, every sakha a
      mandal, every booth a sakha. */
  lemma SummaryCountsNest(db: Db, leaf: seq<VdRow>, data: seq<LokNode>)
    ensures var s := Summarize(db, leaf, data);
            s.vidhanSabha <= s.mandal <= s.sakha <= s.booth
  {
    var g := Grouped(leaf);
    forall i, j | 0 <= i < |g| && 0 <= j < |g| ensures
      (MandalKey(g[i]) == MandalKey(g[j]) ==> VdVid(g[i]) == VdVid(g[j])) &&
      (SakhaKey(g[i]) == SakhaKey(g[j]) ==> MandalKey(g[i]) == MandalKey(g[j])) &&
      (BoothKey(g[i]) == BoothKey(g[j]) ==> SakhaKey(g[i]) == SakhaKey(g[j]))
    {
      CompositeKeys(g[i], g[j]);
    }
    KeysOfMono(g, VdVid, MandalKey);
    KeysOfMono(g, MandalKey, SakhaKey);
    KeysOfMono(g, SakhaKey, BoothKey);
  }

  /** The booth count is the number of complete rows fetched: the rows are
      already distinct on their four ids. */
  lemma BoothCountIsRows(db: Db, leaf: seq<VdRow>, data: seq<LokNode>)
    requires UniqueKeys(leaf, LeafKey)
    ensures Summarize(db, leaf, data).booth == |Grouped(leaf)|
  {
    var g := Grouped(leaf);
    FilterUniqueKeys(leaf, Complete, LeafKey);
    forall i, j | 0 <= i < |g| && 0 <= j < |g| ensures LeafKey(g[i]) == LeafKey(g[j]) <==> BoothKey(g[i]) == BoothKey(g[j]) {
      assert g[i] in leaf && g[j] in leaf;
      CompositeKeys(g[i], g[j]);
    }
    KeysOfSame(g, BoothKey, LeafKey);
    UniqueKeysCard(g, LeafKey);
  }

  // ---------------------------------------------------------------------
  // The whole request

  datatype Payload = Payload(summary: Summary, data: seq<LokNode>)

  /** Either the early exit taken when no Lok Sabha is found, or a full
      result. */
  datatype Outcome = EarlyExit | Resolved(payload: Payload)

  /** The early-exit answer: every count zero, no sambhag or jila count. */
  const EarlyExitPayload := Payload(Summary(0, None, None, 0, 0, 0, 0, 0), [])

  /** Steps 2 to 9 over the database. */
  function Resolve(db: Db, f: Filters): (o: Outcome)
    ensures o.EarlyExit? <==>
      forall i :: 0 <= i < |db.clu| && LokSelected(f, DerivedVids(db, f), db.clu[i]) ==> db.clu[i].lokId.None?
  {
    var derived := DerivedVids(db, f);
    var loks := LokRows(db, f, derived);
    var lokIds := LokIds(loks);
    EarlyExitWhenNoLok(db, f, derived, loks, lokIds);
    if lokIds == [] then EarlyExit
    else
      var vids := VidRows(db, f, derived, lokIds);
      var leaf := LeafRows(db, f, VidIds(vids));
      var data := FinalData(loks, VidEntries(vids, leaf));
      Resolved(Payload(Summarize(db, leaf, data), data))
  }

  lemma EarlyExitWhenNoLok(db: Db, f: Filters, derived: seq<int>, loks: seq<CluRow>, lokIds: seq<int>)
    requires loks == LokRows(db, f, derived) && lokIds == LokIds(loks)
    ensures lokIds == [] <==>
      forall i :: 0 <= i < |db.clu| && LokSelected(f, derived, db.clu[i]) ==> db.clu[i].lokId.None?
  {
    if lokIds == [] {
      forall i | 0 <= i < |db.clu| && LokSelected(f, derived, db.clu[i]) ensures db.clu[i].lokId.None? {
        var k :| 0 <= k < |loks| && LokKey(loks[k]) == LokKey(db.clu[i]);
      }
    } else {
      assert lokIds[0] in lokIds;
      var k :| 0 <= k < |loks| && loks[k].lokId == Some(lokIds[0]);
      assert loks[k] in db.clu;
    }
  }

  /** A `vddata` row with these ids passes the deepest selection. */
  predicate SelectedBooth(db: Db, f: Filters, v: int, m: int, s: int, bt: int)
  {
    exists i :: 0 <= i < |db.vd| && db.vd[i].vidId == Some(v) && db.vd[i].manId == Some(m)
                && db.vd[i].sakId == Some(s) && db.vd[i].btId == Some(bt)
                && LeafFilterAdmits(LeafFilterOf(f), db.vd[i])
  }

  /** The pieces of a full answer. */
  lemma ResolvedParts(db: Db, f: Filters) returns (loks: seq<CluRow>, vids: seq<CluRow>, leaf: seq<VdRow>)
    requires Resolve(db, f).Resolved?
    ensures leaf == LeafRows(db, f, VidIds(vids))
    ensures vids == VidRows(db, f, DerivedVids(db, f), LokIds(loks))
    ensures Resolve(db, f).payload == Payload(Summarize(db, leaf, FinalData(loks, VidEntries(vids, leaf))), FinalData(loks, VidEntries(vids, leaf)))
  {
    loks := LokRows(db, f, DerivedVids(db, f));
    vids := VidRows(db, f, DerivedVids(db, f), LokIds(loks));
    leaf := LeafRows(db, f, VidIds(vids));
  }

  lemma BoothInAnswerSelected(db: Db, f: Filters, loks: seq<CluRow>, vids: seq<CluRow>, leaf: seq<VdRow>,
                              ln: LokNode, vn: VidNode, mn: MandalNode, sn: SakhaNode, b: Booth)
    requires leaf == LeafRows(db, f, VidIds(vids))
    requires ln in FinalData(loks, VidEntries(vids, leaf)) && vn in ln.vids && mn in vn.mandals && sn in mn.sakhas && b in sn.booths
    ensures SelectedBooth(db, f, vn.vidId, mn.manId, sn.sakId, b.btId)
  {
    VidNodeInData(loks, vids, leaf, ln, vn);
    MandalNodeFacts(leaf, vn.vidId, mn);
    SakhaNodeFacts(leaf, vn.vidId, mn.manId, sn);
    BoothRowFrom(leaf, vn.vidId, mn.manId, sn.sakId, b);
    FetchedRowSelected(db, f, VidIds(vids), vn.vidId, mn.manId, sn.sakId, b);
  }

  lemma FetchedRowSelected(db: Db, f: Filters, vidIds: seq<int>, v: int, m: int, s: int, b: Booth)
    requires BoothFrom(LeafRows(db, f, vidIds), v, m, s, b)
    ensures SelectedBooth(db, f, v, m, s, b.btId)
  {
    var leaf := LeafRows(db, f, vidIds);
    var k :| 0 <= k < |leaf| && leaf[k].vidId == Some(v) && leaf[k].manId == Some(m)
              && leaf[k].sakId == Some(s) && leaf[k].btId == Some(b.btId) && leaf[k].btName == b.btName;
    assert leaf[k] in leaf;
    var i :| 0 <= i < |db.vd| && db.vd[i] == leaf[k];
  }

  /** Every booth in a full answer is a `vddata` row on that exact path
      passing the deepest mandal, sakha or booth selection. */
  lemma ResolvedBoothsSelected(db: Db, f: Filters)
    requires Resolve(db, f).Resolved?
    ensures forall ln, vn, mn, sn, b ::
      ln in Resolve(db, f).payload.data && vn in ln.vids && mn in vn.mandals && sn in mn.sakhas && b in sn.booths ==>
        SelectedBooth(db, f, vn.vidId, mn.manId, sn.sakId, b.btId)
  {
    var loks, vids, leaf := ResolvedParts(db, f);
    forall ln, vn, mn, sn, b |
      ln in Resolve(db, f).payload.data && vn in ln.vids && mn in vn.mandals && sn in mn.sakhas && b in sn.booths
      ensures SelectedBooth(db, f, vn.vidId, mn.manId, sn.sakId, b.btId)
    {
      BoothInAnswerSelected(db, f, loks, vids, leaf, ln, vn, mn, sn, b);
    }
  }

  /** A Vidhan Sabha node of the answer carries the mandals built for it. */
  lemma VidNodeInData(loks: seq<CluRow>, vids: seq<CluRow>, leaf: seq<VdRow>, ln: LokNode, vn: VidNode)
    requires ln in FinalData(loks, VidEntries(vids, leaf)) && vn in ln.vids
    ensures vn.mandals == MandalNodes(leaf, vn.vidId)
  {
    var entries := VidEntries(vids, leaf);
    var kept := LoksWithEntries(loks, entries);
    var j :| 0 <= j < |kept| && FinalData(loks, entries)[j] == ln;
    var es := EntriesOf(entries, kept[j].lokId);
    var k :| 0 <= k < |es| && VidsUnder(entries, kept[j].lokId)[k] == vn;
    assert es[k] in entries;
    var kv := KeptVids(vids, leaf);
    var l :| 0 <= l < |kv| && entries[l] == es[k];
  }

  /** Fetched rows none of which is complete build nothing. */
  lemma NoCompleteRows(leaf: seq<VdRow>, vids: seq<CluRow>, loks: seq<CluRow>)
    requires forall x :: x in leaf ==> !Complete(x)
    ensures Grouped(leaf) == [] && FinalVids(leaf) == {}
    ensures FinalData(loks, VidEntries(vids, leaf)) == []
  {
    FilterNone(leaf, Complete);
    FilterNone(vids, (r: CluRow) => VidKept(leaf, r));
    assert KeptVids(vids, leaf) == [];
    FilterNone(loks, (r: CluRow) => HasEntry([], r.lokId));
    assert LoksWithEntries(loks, []) == [];
  }

  /** With no complete row in `vddata` the answer is empty and every
      count is zero. */
  lemma NoRowsNoData(db: Db, f: Filters)
    requires Resolve(db, f).Resolved?
    requires forall i :: 0 <= i < |db.vd| ==> !Complete(db.vd[i])
    ensures Resolve(db, f).payload == Payload(Summary(0, Some(0), Some(0), 0, 0, 0, 0, 0), [])
  {
    var loks, vids, leaf := ResolvedParts(db, f);
    LeafNotComplete(db, f, VidIds(vids), leaf);
    NoCompleteRows(leaf, vids, loks);
    EmptySummary(db, leaf, FinalData(loks, VidEntries(vids, leaf)));
  }

  lemma LeafNotComplete(db: Db, f: Filters, vidIds: seq<int>, leaf: seq<VdRow>)
    requires leaf == LeafRows(db, f, vidIds)
    requires forall i :: 0 <= i < |db.vd| ==> !Complete(db.vd[i])
    ensures forall x :: x in leaf ==> !Complete(x)
  {
    forall x | x in leaf ensures !Complete(x) {
      var i :| 0 <= i < |db.vd| && db.vd[i] == x;
    }
  }

  lemma EmptySummary(db: Db, leaf: seq<VdRow>, data: seq<LokNode>)
    requires Grouped(leaf) == [] && FinalVids(leaf) == {} && data == []
    ensures Summarize(db, leaf, data) == Summary(0, Some(0), Some(0), 0, 0, 0, 0, 0)
  {
  }

  /** A selected sambhag or jila that has no Vidhan Sabha adds no
      condition: with no cluster or Lok Sabha selected, every Lok Sabha is
      returned. */
  lemma UnmatchedSambhagSelectsAll(db: Db, f: Filters)
    requires f.cluster == [] && f.lok == [] && DerivedVids(db, f) == []
    ensures LokRows(db, f, []) == DistinctBy(db.clu, LokKey)
  {
    FilterAll(db.clu, (r: CluRow) => LokSelected(f, [], r));
  }

  // ---------------------------------------------------------------------
  // The handler with its response cache

  /** `CACHE_TTL`: one hour. */
  const CacheTtl: nat := 3600

  /** The JSON answer: `cached` is present except on the early exit. */
  datatype Response = Response(cached: Option<bool>, payload: Payload)

  /** `getHierarchyDataMultiple`: a cache hit answers with the stored
      payload; otherwise the answer is resolved, and stored only when it
      is a full result. */
  function Handle(c: Store<Payload>, now: int, db: Db, q: Query): (res: (Response, Store<Payload>))
    ensures Get(c, HierarchyCacheKey(q), now).Some? ==>
              res == (Response(Some(true), Get(c, HierarchyCacheKey(q), now).value), c)
    ensures Get(c, HierarchyCacheKey(q), now).None? && Resolve(db, ReadFilters(q)).EarlyExit? ==>
              res == (Response(None, EarlyExitPayload), c)
    ensures Get(c, HierarchyCacheKey(q), now).None? && Resolve(db, ReadFilters(q)).Resolved? ==>
              res.0 == Response(Some(false), Resolve(db, ReadFilters(q)).payload) &&
              res.1 == Put(c, HierarchyCacheKey(q), Resolve(db, ReadFilters(q)).payload, CacheTtl, now)
  {
    var key := HierarchyCacheKey(q);
    match Get(c, key, now)
    case Some(p) => (Response(Some(true), p), c)
    case None =>
      match Resolve(db, ReadFilters(q))
      case EarlyExit => (Response(None, EarlyExitPayload), c)
      case Resolved(p) => (Response(Some(false), p), Put(c, key, p, CacheTtl, now))
  }

  /** A hit does not look at the database. */
  lemma HitIgnoresDatabase(c: Store<Payload>, now: int, db1: Db, db2: Db, q: Query)
    requires Get(c, HierarchyCacheKey(q), now).Some?
    ensures Handle(c, now, db1, q) == Handle(c, now, db2, q)
  {
  }

  /** Within the hour after a full answer, a request with the same key
      (any spelling of the same filters) gets that answer back, marked
      cached, whatever the database then holds. */
  lemma RepeatWithinHourIsCached(c: Store<Payload>, now: int, later: int, db1: Db, db2: Db, q1: Query, q2: Query)
    requires now <= later < now + CacheTtl
    requires HierarchyCacheKey(q1) == HierarchyCacheKey(q2)
    requires Get(c, HierarchyCacheKey(q1), now).None? && Resolve(db1, ReadFilters(q1)).Resolved?
    ensures var c2 := Handle(c, now, db1, q1).1;
            Handle(c2, later, db2, q2).0 == Response(Some(true), Resolve(db1, ReadFilters(q1)).payload)
  {
    GetPut(c, HierarchyCacheKey(q1), Resolve(db1, ReadFilters(q1)).payload, CacheTtl, now);
  }

  /** The early exit is never stored: the same request is resolved again. */
  lemma EarlyExitNotCached(c: Store<Payload>, now: int, db: Db, q: Query)
    requires Get(c, HierarchyCacheKey(q), now).None? && Resolve(db, ReadFilters(q)).EarlyExit?
    ensures Handle(c, now, db, q).1 == c
    ensures Get(Handle(c, now, db, q).1, HierarchyCacheKey(q), now).None?
  {
  }
}
