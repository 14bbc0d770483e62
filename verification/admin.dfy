/** The admin count reports: for an ancestor level (cluster, sambhag, jila,
    Lok Sabha, Vidhan Sabha, mandal, sakha) every ancestor with the list and
    number of its children at a lower level. Each report runs an ancestor
    query and a child query, groups the child rows under their ancestor
    column in one pass and answers `{totalLevelCount, totalColumnCount,
    countData, detailedData}`. The queries are filters, joins and GROUP BY
    / DISTINCT (first row per key) over the three tables. */
module Admin {
  import opened Seqs
  import opened JsText
  import opened Tables
  import opened Grouping

  // ---------------------------------------------------------------------
  // Columns

  function CClus(r: CluRow): Option<int> { r.clusId }
  function CClusNm(r: CluRow): Option<string> { r.clusName }
  function CLok(r: CluRow): Option<int> { r.lokId }
  function CLokNm(r: CluRow): Option<string> { r.lokName }
  function CVid(r: CluRow): Option<int> { r.vidId }
  function CVidNm(r: CluRow): Option<string> { r.vidName }
  function SSam(r: SmRow): Option<int> { r.samId }
  function SSamNm(r: SmRow): Option<string> { r.samName }
  function SJila(r: SmRow): Option<int> { r.jilaId }
  function SJilaNm(r: SmRow): Option<string> { r.jilaName }
  function SVid(r: SmRow): Option<int> { r.vidId }
  function VVid(r: VdRow): Option<int> { r.vidId }
  function VMan(r: VdRow): Option<int> { r.manId }
  function VManNm(r: VdRow): Option<string> { r.manName }
  function VSak(r: VdRow): Option<int> { r.sakId }
  function VSakNm(r: VdRow): Option<string> { r.sakName }
  function VBt(r: VdRow): Option<int> { r.btId }

  function NotNull<T>(col: T -> Option<int>): T -> bool
  {
    (r: T) => col(r).Some?
  }

  // ---------------------------------------------------------------------
  // Ancestor queries

  /** An ancestor row: its id and name. */
  datatype Anc = Anc(id: Option<int>, name: Option<string>)

  function AncId(a: Anc): Option<int> { a.id }
  function AncName(a: Anc): Option<string> { a.name }

  function AncOf<T>(col: T -> Option<int>, name: T -> Option<string>): T -> Anc
  {
    (r: T) => Anc(col(r), name(r))
  }

  /** `SELECT col, ANY_VALUE(name) FROM t WHERE col IS NOT NULL GROUP BY col`:
      one row per distinct non-null id. */
  function GroupedIds<T(!new)>(rows: seq<T>, col: T -> Option<int>, name: T -> Option<string>): (r: seq<Anc>)
    ensures UniqueKeys(r, AncId)
    ensures forall k :: k in KeysOf(r, AncId) <==> k.Some? && k in KeysOf(rows, col)
  {
    var d := DistinctBy(Filter(rows, NotNull(col)), col);
    var r := Map(d, AncOf(col, name));
    assert forall i :: 0 <= i < |d| ==> AncId(r[i]) == col(d[i]);
    assert KeysOf(r, AncId) == KeysOf(d, col);
    forall k ensures k in KeysOf(d, col) <==> k.Some? && k in KeysOf(rows, col) {
      KeysOfFilter(rows, NotNull(col), col, k);
    }
    r
  }

  /** The labels of a report over `Anc` rows. */
  function AncLabels(level: string, column: string): Labels<Anc, Option<int>>
  {
    Labels(AncId, AncName, level, column)
  }

  function Clusters(db: Db): seq<Anc> { GroupedIds(db.clu, CClus, CClusNm) }
  function LokSabhas(db: Db): seq<Anc> { GroupedIds(db.clu, CLok, CLokNm) }
  function VidhanSabhas(db: Db): seq<Anc> { GroupedIds(db.clu, CVid, CVidNm) }
  function Sambhags(db: Db): seq<Anc> { GroupedIds(db.sm, SSam, SSamNm) }
  function Jilas(db: Db): seq<Anc> { GroupedIds(db.sm, SJila, SJilaNm) }

  /** A mandal or sakha ancestor: it is identified by its Vidhan Sabha and
      its own id, and looked up under the key `${VID_ID}_${id}`. */
  datatype PairAnc = PairAnc(vidId: Option<int>, id: Option<int>, name: Option<string>)

  function PairKey(a: PairAnc): string { UnderscoreKey(a.vidId, a.id) }
  function PairName(a: PairAnc): Option<string> { a.name }

  function PairLabels(level: string, column: string): Labels<PairAnc, string>
  {
    Labels(PairKey, PairName, level, column)
  }

  function VidMan(r: VdRow): (Option<int>, Option<int>) { (r.vidId, r.manId) }
  function VidSak(r: VdRow): (Option<int>, Option<int>) { (r.vidId, r.sakId) }
  function MandalAnc(r: VdRow): PairAnc { PairAnc(r.vidId, r.manId, r.manName) }
  function SakhaAnc(r: VdRow): PairAnc { PairAnc(r.vidId, r.sakId, r.sakName) }

  predicate SakhaNamed(r: VdRow) { r.sakId.Some? && NonBlankName(r.sakName) }

  /** `SELECT VID_ID, MAN_ID, MIN(MAN_NM) FROM vddata WHERE MAN_ID IS NOT NULL
      GROUP BY VID_ID, MAN_ID`. */
  function Mandals(db: Db): (r: seq<PairAnc>)
    ensures UniqueKeys(r, PairKey)
  {
    var d := DistinctBy(Filter(db.vd, NotNull(VMan)), VidMan);
    var r := Map(d, MandalAnc);
    PairKeysUnique(d, VidMan, MandalAnc);
    r
  }

  /** `SELECT VID_ID, SAK_ID, MIN(SAK_NM) FROM vddata WHERE SAK_ID IS NOT NULL
      AND SAK_NM IS NOT NULL AND SAK_NM != '' GROUP BY VID_ID, SAK_ID`. */
  function Sakhas(db: Db): (r: seq<PairAnc>)
    ensures UniqueKeys(r, PairKey)
  {
    var d := DistinctBy(Filter(db.vd, SakhaNamed), VidSak);
    var r := Map(d, SakhaAnc);
    PairKeysUnique(d, VidSak, SakhaAnc);
    r
  }

  /** Rows unique on a (Vidhan Sabha, id) pair have distinct string keys. */
  lemma PairKeysUnique(d: seq<VdRow>, pair: VdRow -> (Option<int>, Option<int>), anc: VdRow -> PairAnc)
    requires UniqueKeys(d, pair)
    requires forall x :: anc(x).vidId == pair(x).0 && anc(x).id == pair(x).1
    ensures UniqueKeys(Map(d, anc), PairKey)
  {
    var r := Map(d, anc);
    forall i, j | 0 <= i < j < |r| ensures PairKey(r[i]) != PairKey(r[j]) {
      UnderscoreKeyInjective(r[i].vidId, r[i].id, r[j].vidId, r[j].id);
    }
  }

  // ---------------------------------------------------------------------
  // Child items

  /** A listed child: `{ID, NM}`, or `{VID_ID, ID, NM}` when the report
      adds the Vidhan Sabha. */
  datatype Item = Item(id: Option<int>, name: Option<string>)
                | VidItem(vidId: Option<int>, id: Option<int>, name: Option<string>)

  function ItemId(x: Item): Option<int> { x.id }

  /** Joined rows: a `vddata` row with a `cludata` or `smdata` row of the
      same Vidhan Sabha. */
  type VC = (VdRow, CluRow)
  type VS = (VdRow, SmRow)

  /** `vddata v JOIN cludata c ON v.VID_ID = c.VID_ID`. */
  function JoinClu(db: Db): seq<VC> { JoinOn(db.vd, db.clu, VVid, CVid) }
  /** `vddata v JOIN smdata s ON v.VID_ID = s.VID_ID`. */
  function JoinSm(db: Db): seq<VS> { JoinOn(db.vd, db.sm, VVid, SVid) }

  function JClus(p: VC): Option<int> { p.1.clusId }
  function JLok(p: VC): Option<int> { p.1.lokId }
  function JSam(p: VS): Option<int> { p.1.samId }
  function JJila(p: VS): Option<int> { p.1.jilaId }
  predicate CManNotNull(p: VC) { p.0.manId.Some? }
  predicate SManNotNull(p: VS) { p.0.manId.Some? }
  predicate CSakNotNull(p: VC) { p.0.sakId.Some? }
  predicate SSakNotNull(p: VS) { p.0.sakId.Some? }
  predicate CSakNamed(p: VC) { SakhaNamed(p.0) }
  predicate SSakNamed(p: VS) { SakhaNamed(p.0) }

  // ---------------------------------------------------------------------
  // Mandals under an ancestor

  /** `CONCAT(v.VID_ID, '-', v.MAN_ID)`: both are non-null in these queries. */
  function UniqueId(r: VdRow): string { DashCons(IdOf(r.vidId), IntToString(IdOf(r.manId))) }

  function CUniqueId(p: VC): string { UniqueId(p.0) }
  function CVidMan(p: VC): (Option<int>, Option<int>) { VidMan(p.0) }
  function CMandalItem(p: VC): Item { VidItem(p.0.vidId, p.0.manId, p.0.manName) }
  function CManItem(p: VC): Item { Item(p.0.manId, p.0.manName) }
  function SManItem(p: VS): Item { Item(p.0.manId, p.0.manName) }

  /** `SELECT DISTINCT uniqueId, c.CLUS_ID, v.VID_ID, v.MAN_ID, v.MAN_NM` over
      the join, `MAN_ID IS NOT NULL` (the uniqueId is fixed by VID and MAN). */
  function ClusterMandalKey(p: VC): (Option<int>, Option<int>, Option<int>, Option<string>)
  {
    (p.1.clusId, p.0.vidId, p.0.manId, p.0.manName)
  }

  function ClusterMandalRows(db: Db): (r: seq<VC>)
    ensures forall p :: p in r ==> p.0 in db.vd && p.1 in db.clu && p.0.vidId == p.1.vidId
    ensures forall p :: p in r ==> p.0.vidId.Some? && p.0.manId.Some?
  {
    DistinctBy(Filter(JoinClu(db), CManNotNull), ClusterMandalKey)
  }

  /** The entries of one cluster's `Map`, keyed on the uniqueId. */
  function ClusterMandalMap(rows: seq<VC>, k: Option<int>): seq<Slot<string, Item>>
  {
    Fold(Filter(rows, HasKey(JClus, k)), MapSetStep(CUniqueId, CMandalItem), [])
  }

  function SlotValue(e: Slot<string, Item>): Item { e.value }

  function SlotValues(l: seq<Slot<string, Item>>): seq<Item> { Map(l, SlotValue) }

  function MandalMapUnder(rows: seq<VC>): Anc -> seq<Item>
  {
    (a: Anc) => SlotValues(ClusterMandalMap(rows, a.id))
  }

  /** `getAllMandleInCluster`: every cluster with the mandals of its Vidhan
      Sabhas, de-duplicated per cluster in a `Map` on the uniqueId; the
      count is the number of distinct (VID_ID, MAN_ID) pairs among the
      cluster's rows. */
  function MandleInCluster(db: Db): (r: Report<Anc, Option<int>, Item>)
    ensures r.totalColumnCount == |ClusterMandalRows(db)|
    ensures Lists(r, AncLabels("cluster", "mandal"), Clusters(db), MandalMapUnder(ClusterMandalRows(db)))
    ensures forall i :: 0 <= i < |r.countData| ==>
              r.countData[i].count == |KeysOf(Filter(ClusterMandalRows(db), HasKey(JClus, r.countData[i].id)), CVidMan)|
  {
    var rows := ClusterMandalRows(db);
    var m := GroupFold(rows, JClus, MapSetStep(CUniqueId, CMandalItem), []);
    var ancs := Clusters(db);
    var groups := Map(ancs, GroupWith(m, AncId, [], SlotValues));
    forall i | 0 <= i < |ancs|
      ensures groups[i] == Group(ancs[i], MandalMapUnder(rows)(ancs[i]))
      ensures |MandalMapUnder(rows)(ancs[i])| == |KeysOf(Filter(rows, HasKey(JClus, ancs[i].id)), CVidMan)|
    {
      GroupFoldState(rows, JClus, MapSetStep(CUniqueId, CMandalItem), [], ancs[i].id);
      MandalCount(rows, ancs[i].id);
    }
    MakeReport(AncLabels("cluster", "mandal"), |ancs|, |rows|, groups)
  }

  /** One cluster's `Map` has an entry per distinct uniqueId, that is per
      distinct (VID_ID, MAN_ID) pair. */
  lemma MandalCount(rows: seq<VC>, k: Option<int>)
    requires forall p :: p in rows ==> p.0.vidId.Some? && p.0.manId.Some?
    ensures |SlotValues(ClusterMandalMap(rows, k))| == |KeysOf(Filter(rows, HasKey(JClus, k)), CVidMan)|
  {
    var f := Filter(rows, HasKey(JClus, k));
    FoldMapSetCount(f, CUniqueId, CMandalItem);
    forall i, j | 0 <= i < |f| && 0 <= j < |f|
      ensures CVidMan(f[i]) == CVidMan(f[j]) <==> CUniqueId(f[i]) == CUniqueId(f[j])
    {
      assert f[i] in rows && f[j] in rows;
      UniqueIdInjective(f[i].0, f[j].0);
    }
    KeysOfSame(f, CUniqueId, CVidMan);
  }

  /** Two joined rows share a uniqueId exactly when they share VID and MAN
      (both are non-null here, see `ClusterMandalRows`). */
  lemma UniqueIdInjective(r1: VdRow, r2: VdRow)
    requires r1.vidId.Some? && r1.manId.Some? && r2.vidId.Some? && r2.manId.Some?
    ensures UniqueId(r1) == UniqueId(r2) <==> VidMan(r1) == VidMan(r2)
  {
    if UniqueId(r1) == UniqueId(r2) {
      DashConsInjective(IdOf(r1.vidId), IntToString(IdOf(r1.manId)), IdOf(r2.vidId), IntToString(IdOf(r2.manId)));
      IntToStringInjective(IdOf(r1.manId), IdOf(r2.manId));
    }
  }

  /** Every listed mandal is the one the cluster's last row with that
      uniqueId wrote: `Map.set` keeps the first position and the last
      value. */
  lemma MandleLastWins(rows: seq<VC>, k: Option<int>)
    ensures forall e :: e in ClusterMandalMap(rows, k) ==>
              WrittenLast(Filter(rows, HasKey(JClus, k)), CUniqueId, CMandalItem, e)
  {
    FoldMapSetValues(Filter(rows, HasKey(JClus, k)), CUniqueId, CMandalItem);
  }

  // The push variants over mandals

  function SambhagMandalKey(p: VS): (Option<int>, Option<int>, Option<int>, Option<string>)
  {
    (p.1.samId, p.0.vidId, p.0.manId, p.0.manName)
  }

  function SambhagMandalSource(db: Db): seq<VS> { Filter(JoinSm(db), SManNotNull) }

  /** `getAllMandalsInSambhag`: DISTINCT (uniqueId, SAM_ID, MAN_ID, MAN_NM)
      over the join, pushed under SAM_ID. */
  function MandalsInSambhag(db: Db): (r: Report<Anc, Option<int>, Item>)
    ensures r.totalColumnCount == |DistinctBy(SambhagMandalSource(db), SambhagMandalKey)|
    ensures Lists(r, AncLabels("sambhag", "mandal"), Sambhags(db),
                  PushedUnder(DistinctBy(SambhagMandalSource(db), SambhagMandalKey), AncId, JSam, SManItem))
    ensures forall i :: 0 <= i < |r.countData| ==>
              r.countData[i].count == |KeysOf(Filter(SambhagMandalSource(db), HasKey(JSam, r.countData[i].id)), SambhagMandalKey)|
  {
    GroupedPush(Sambhags(db), SambhagMandalSource(db), SambhagMandalKey, JSam, AncId, SManItem, AncLabels("sambhag", "mandal"))
  }

  function VdManItem(r: VdRow): Item { Item(r.manId, r.manName) }

  function VidMandalSource(db: Db): seq<VdRow> { Filter(db.vd, NotNull(VMan)) }

  /** `getAllMandalsInVidhanSabha`: `GROUP BY VID_ID, MAN_ID` over `vddata`
      with a mandal, pushed under VID_ID. */
  function MandalsInVidhanSabha(db: Db): (r: Report<Anc, Option<int>, Item>)
    ensures r.totalColumnCount == |DistinctBy(VidMandalSource(db), VidMan)|
    ensures Lists(r, AncLabels("vid", "mandal"), VidhanSabhas(db),
                  PushedUnder(DistinctBy(VidMandalSource(db), VidMan), AncId, VVid, VdManItem))
    ensures forall i :: 0 <= i < |r.countData| ==>
              r.countData[i].count == |KeysOf(Filter(VidMandalSource(db), HasKey(VVid, r.countData[i].id)), VidMan)|
  {
    GroupedPush(VidhanSabhas(db), VidMandalSource(db), VidMan, VVid, AncId, VdManItem, AncLabels("vid", "mandal"))
  }

  function LokMandalKey(p: VC): (Option<int>, Option<int>, Option<int>, Option<string>)
  {
    (p.1.lokId, p.0.vidId, p.0.manId, p.0.manName)
  }

  function LokMandalSource(db: Db): seq<VC> { Filter(JoinClu(db), CManNotNull) }

  /** `getAllMandalsInLokSabha`: DISTINCT (uniqueId, LOK_ID, MAN_ID, MAN_NM)
      over the join, pushed under LOK_ID. */
  function MandalsInLokSabha(db: Db): (r: Report<Anc, Option<int>, Item>)
    ensures r.totalColumnCount == |DistinctBy(LokMandalSource(db), LokMandalKey)|
    ensures Lists(r, AncLabels("lok", "mandal"), LokSabhas(db),
                  PushedUnder(DistinctBy(LokMandalSource(db), LokMandalKey), AncId, JLok, CManItem))
    ensures forall i :: 0 <= i < |r.countData| ==>
              r.countData[i].count == |KeysOf(Filter(LokMandalSource(db), HasKey(JLok, r.countData[i].id)), LokMandalKey)|
  {
    GroupedPush(LokSabhas(db), LokMandalSource(db), LokMandalKey, JLok, AncId, CManItem, AncLabels("lok", "mandal"))
  }

  function JilaMandalKey(p: VS): (Option<int>, Option<int>, Option<int>, Option<string>)
  {
    (p.1.jilaId, p.0.vidId, p.0.manId, p.0.manName)
  }

  /** `getAllMandalsInJila`: DISTINCT (uniqueId, JILA_ID, MAN_ID, MAN_NM)
      over the join, pushed under JILA_ID. */
  function MandalsInJila(db: Db): (r: Report<Anc, Option<int>, Item>)
    ensures r.totalColumnCount == |DistinctBy(SambhagMandalSource(db), JilaMandalKey)|
    ensures Lists(r, AncLabels("jila", "mandal"), Jilas(db),
                  PushedUnder(DistinctBy(SambhagMandalSource(db), JilaMandalKey), AncId, JJila, SManItem))
    ensures forall i :: 0 <= i < |r.countData| ==>
              r.countData[i].count == |KeysOf(Filter(SambhagMandalSource(db), HasKey(JJila, r.countData[i].id)), JilaMandalKey)|
  {
    GroupedPush(Jilas(db), SambhagMandalSource(db), JilaMandalKey, JJila, AncId, SManItem, AncLabels("jila", "mandal"))
  }

  // ---------------------------------------------------------------------
  // Sakhas under an ancestor

  function CSakhaItem(p: VC): Item { VidItem(p.0.vidId, p.0.sakId, p.0.sakName) }
  function SSakhaItem(p: VS): Item { VidItem(p.0.vidId, p.0.sakId, p.0.sakName) }
  function ClusVidSak(p: VC): (Option<int>, Option<int>, Option<int>) { (p.1.clusId, p.0.vidId, p.0.sakId) }
  function LokVidSak(p: VC): (Option<int>, Option<int>, Option<int>) { (p.1.lokId, p.0.vidId, p.0.sakId) }
  function SamVidSak(p: VS): (Option<int>, Option<int>, Option<int>) { (p.1.samId, p.0.vidId, p.0.sakId) }
  function JilaVidSak(p: VS): (Option<int>, Option<int>, Option<int>) { (p.1.jilaId, p.0.vidId, p.0.sakId) }

  function ClusterSakhaSource(db: Db): seq<VC> { Filter(JoinClu(db), CSakNotNull) }

  /** `getAllSakhasInCluster`: `GROUP BY CLUS_ID, VID_ID, SAK_ID` over the
      join, pushed under CLUS_ID. */
  function SakhasInCluster(db: Db): (r: Report<Anc, Option<int>, Item>)
    ensures r.totalColumnCount == |DistinctBy(ClusterSakhaSource(db), ClusVidSak)|
    ensures Lists(r, AncLabels("cluster", "sakha"), Clusters(db),
                  PushedUnder(DistinctBy(ClusterSakhaSource(db), ClusVidSak), AncId, JClus, CSakhaItem))
    ensures forall i :: 0 <= i < |r.countData| ==>
              r.countData[i].count == |KeysOf(Filter(ClusterSakhaSource(db), HasKey(JClus, r.countData[i].id)), ClusVidSak)|
  {
    GroupedPush(Clusters(db), ClusterSakhaSource(db), ClusVidSak, JClus, AncId, CSakhaItem, AncLabels("cluster", "sakha"))
  }

  function SambhagSakhaSource(db: Db): seq<VS> { Filter(JoinSm(db), SSakNotNull) }

  /** `getAllSakhasInSambhag`: `GROUP BY SAM_ID, VID_ID, SAK_ID` over the
      join, pushed under SAM_ID. */
  function SakhasInSambhag(db: Db): (r: Report<Anc, Option<int>, Item>)
    ensures r.totalColumnCount == |DistinctBy(SambhagSakhaSource(db), SamVidSak)|
    ensures Lists(r, AncLabels("sambhag", "sakha"), Sambhags(db),
                  PushedUnder(DistinctBy(SambhagSakhaSource(db), SamVidSak), AncId, JSam, SSakhaItem))
    ensures forall i :: 0 <= i < |r.countData| ==>
              r.countData[i].count == |KeysOf(Filter(SambhagSakhaSource(db), HasKey(JSam, r.countData[i].id)), SamVidSak)|
  {
    GroupedPush(Sambhags(db), SambhagSakhaSource(db), SamVidSak, JSam, AncId, SSakhaItem, AncLabels("sambhag", "sakha"))
  }

  function LokSakhaSource(db: Db): seq<VC> { Filter(JoinClu(db), CSakNamed) }

  /** `getAllSakhasInLokSabha`: `GROUP BY LOK_ID, VID_ID, SAK_ID` over the
      join, named sakhas only, pushed under LOK_ID. */
  function SakhasInLokSabha(db: Db): (r: Report<Anc, Option<int>, Item>)
    ensures r.totalColumnCount == |DistinctBy(LokSakhaSource(db), LokVidSak)|
    ensures Lists(r, AncLabels("lok", "sakha"), LokSabhas(db),
                  PushedUnder(DistinctBy(LokSakhaSource(db), LokVidSak), AncId, JLok, CSakhaItem))
    ensures forall i :: 0 <= i < |r.countData| ==>
              r.countData[i].count == |KeysOf(Filter(LokSakhaSource(db), HasKey(JLok, r.countData[i].id)), LokVidSak)|
  {
    GroupedPush(LokSabhas(db), LokSakhaSource(db), LokVidSak, JLok, AncId, CSakhaItem, AncLabels("lok", "sakha"))
  }

  function VdSakItem(r: VdRow): Item { Item(r.sakId, r.sakName) }

  function VidSakhaSource(db: Db): seq<VdRow> { Filter(db.vd, NotNull(VSak)) }

  /** `getAllSakhasInVidhanSabha`: `GROUP BY VID_ID, SAK_ID` over `vddata`,
      pushed under VID_ID. */
  function SakhasInVidhanSabha(db: Db): (r: Report<Anc, Option<int>, Item>)
    ensures r.totalColumnCount == |DistinctBy(VidSakhaSource(db), VidSak)|
    ensures Lists(r, AncLabels("vid", "sakha"), VidhanSabhas(db),
                  PushedUnder(DistinctBy(VidSakhaSource(db), VidSak), AncId, VVid, VdSakItem))
    ensures forall i :: 0 <= i < |r.countData| ==>
              r.countData[i].count == |KeysOf(Filter(VidSakhaSource(db), HasKey(VVid, r.countData[i].id)), VidSak)|
  {
    GroupedPush(VidhanSabhas(db), VidSakhaSource(db), VidSak, VVid, AncId, VdSakItem, AncLabels("vid", "sakha"))
  }

  function JilaSakhaSource(db: Db): seq<VS> { Filter(JoinSm(db), SSakNamed) }

  /** `getAllSakhasInJila`: `GROUP BY JILA_ID, VID_ID, SAK_ID` over the join,
      named sakhas only, pushed under JILA_ID. */
  function SakhasInJila(db: Db): (r: Report<Anc, Option<int>, Item>)
    ensures r.totalColumnCount == |DistinctBy(JilaSakhaSource(db), JilaVidSak)|
    ensures Lists(r, AncLabels("jila", "sakha"), Jilas(db),
                  PushedUnder(DistinctBy(JilaSakhaSource(db), JilaVidSak), AncId, JJila, SSakhaItem))
    ensures forall i :: 0 <= i < |r.countData| ==>
              r.countData[i].count == |KeysOf(Filter(JilaSakhaSource(db), HasKey(JJila, r.countData[i].id)), JilaVidSak)|
  {
    GroupedPush(Jilas(db), JilaSakhaSource(db), JilaVidSak, JJila, AncId, SSakhaItem, AncLabels("jila", "sakha"))
  }

  // getAllSakhasInMandal: keyed on `${VID_ID}_${MAN_ID}`, with a `some`
  // check on SAK_ID

  predicate MandalSakhaRow(r: VdRow) { r.manId.Some? && NonBlankName(r.sakName) }

  function VidManSak(r: VdRow): (Option<int>, Option<int>, Option<int>) { (r.vidId, r.manId, r.sakId) }

  /** `${row.VID_ID}_${row.mandalId}` */
  function RowMandalKey(r: VdRow): string { UnderscoreKey(r.vidId, r.manId) }

  function MandalSakhaItem(r: VdRow): Item { VidItem(r.vidId, r.sakId, r.sakName) }

  /** `GROUP BY VID_ID, MAN_ID, SAK_ID` over `vddata` rows with a mandal and
      a named sakha (SAK_ID itself may be NULL). */
  function MandalSakhaRows(db: Db): seq<VdRow>
  {
    DistinctBy(Filter(db.vd, MandalSakhaRow), VidManSak)
  }

  /** `getAllSakhasInMandal`. The `some` check on SAK_ID never drops a row:
      within one key the rows share VID_ID and MAN_ID, and the query
      already grouped on SAK_ID; so every mandal lists all its grouped
      rows, and the count is the number of distinct SAK_IDs. */
  function SakhasInMandal(db: Db): (r: Report<PairAnc, string, Item>)
    ensures r.totalColumnCount == |MandalSakhaRows(db)|
    ensures Lists(r, PairLabels("mandal", "sakha"), Mandals(db),
                  PushedUnder(MandalSakhaRows(db), PairKey, RowMandalKey, MandalSakhaItem))
    ensures forall i :: 0 <= i < |r.countData| ==>
              r.countData[i].count == |KeysOf(Filter(Filter(db.vd, MandalSakhaRow), HasKey(RowMandalKey, r.countData[i].id)), VidManSak)|
  {
    var rows := MandalSakhaRows(db);
    var m := GroupFold(rows, RowMandalKey, SomeStep(MandalSakhaItem, ItemId), []);
    var ancs := Mandals(db);
    var groups := Map(ancs, GroupWith(m, PairKey, [], Id));
    forall i | 0 <= i < |ancs|
      ensures groups[i] == Group(ancs[i], PushedUnder(rows, PairKey, RowMandalKey, MandalSakhaItem)(ancs[i]))
      ensures |PushedUnder(rows, PairKey, RowMandalKey, MandalSakhaItem)(ancs[i])|
              == |KeysOf(Filter(Filter(db.vd, MandalSakhaRow), HasKey(RowMandalKey, PairKey(ancs[i]))), VidManSak)|
    {
      MandalGroup(db, ancs[i]);
    }
    MakeReport(PairLabels("mandal", "sakha"), |ancs|, |rows|, groups)
  }

  /** One mandal's group in `getAllSakhasInMandal`. */
  lemma MandalGroup(db: Db, a: PairAnc)
    ensures GroupWith(GroupFold(MandalSakhaRows(db), RowMandalKey, SomeStep(MandalSakhaItem, ItemId), []), PairKey, [], Id)(a)
            == Group(a, PushedUnder(MandalSakhaRows(db), PairKey, RowMandalKey, MandalSakhaItem)(a))
    ensures |PushedUnder(MandalSakhaRows(db), PairKey, RowMandalKey, MandalSakhaItem)(a)|
            == |KeysOf(Filter(Filter(db.vd, MandalSakhaRow), HasKey(RowMandalKey, PairKey(a))), VidManSak)|
  {
    MandalGroupItems(db, a);
    MandalGroupCount(db, a);
  }

  lemma MandalGroupItems(db: Db, a: PairAnc)
    ensures GroupWith(GroupFold(MandalSakhaRows(db), RowMandalKey, SomeStep(MandalSakhaItem, ItemId), []), PairKey, [], Id)(a)
            == Group(a, PushedUnder(MandalSakhaRows(db), PairKey, RowMandalKey, MandalSakhaItem)(a))
  {
    var rows := MandalSakhaRows(db);
    var k := PairKey(a);
    var step := SomeStep(MandalSakhaItem, ItemId);
    var m := GroupFold(rows, RowMandalKey, step, []);
    GroupFoldState(rows, RowMandalKey, step, [], k);
    SomeCheckKeepsAll(db, k);
    assert GroupWith(m, PairKey, [], Id)(a) == Group(a, StateAt(m, k, []));
    assert PushedUnder(rows, PairKey, RowMandalKey, MandalSakhaItem)(a) == Map(Filter(rows, HasKey(RowMandalKey, k)), MandalSakhaItem);
  }

  lemma MandalGroupCount(db: Db, a: PairAnc)
    ensures |PushedUnder(MandalSakhaRows(db), PairKey, RowMandalKey, MandalSakhaItem)(a)|
            == |KeysOf(Filter(Filter(db.vd, MandalSakhaRow), HasKey(RowMandalKey, PairKey(a))), VidManSak)|
  {
    var k := PairKey(a);
    assert PushedUnder(MandalSakhaRows(db), PairKey, RowMandalKey, MandalSakhaItem)(a)
        == Map(Filter(MandalSakhaRows(db), HasKey(RowMandalKey, k)), MandalSakhaItem);
    GroupedCount(Filter(db.vd, MandalSakhaRow), VidManSak, RowMandalKey, k);
  }

  /** The `some(s => s.SAK_ID === row.sakhaId)` check is redundant: it keeps
      every grouped row of a mandal. */
  lemma SomeCheckKeepsAll(db: Db, k: string)
    ensures Fold(Filter(MandalSakhaRows(db), HasKey(RowMandalKey, k)), SomeStep(MandalSakhaItem, ItemId), [])
            == Map(Filter(MandalSakhaRows(db), HasKey(RowMandalKey, k)), MandalSakhaItem)
  {
    var rows := MandalSakhaRows(db);
    FilterUniqueKeys(rows, HasKey(RowMandalKey, k), VidManSak);
    SomeKeepsUnique(Filter(rows, HasKey(RowMandalKey, k)), k);
  }

  /** Rows under one mandal key that differ in (VID_ID, MAN_ID, SAK_ID)
      differ in SAK_ID, so the `some` check lets each one through. */
  lemma SomeKeepsUnique(f: seq<VdRow>, k: string)
    requires UniqueKeys(f, VidManSak)
    requires forall r :: r in f ==> RowMandalKey(r) == k
    ensures Fold(f, SomeStep(MandalSakhaItem, ItemId), []) == Map(f, MandalSakhaItem)
  {
    FoldSome(f, MandalSakhaItem, ItemId);
    var items := Map(f, MandalSakhaItem);
    forall i, j | 0 <= i < j < |items| ensures ItemId(items[i]) != ItemId(items[j]) {
      assert f[i] in f && f[j] in f;
      UnderscoreKeyInjective(f[i].vidId, f[i].manId, f[j].vidId, f[j].manId);
      assert VidManSak(f[i]) != VidManSak(f[j]);
    }
    DistinctByUnique(items, ItemId);
  }

  // ---------------------------------------------------------------------
  // Vidhan Sabhas, Lok Sabhas and jilas under an ancestor

  function ClusVid(r: CluRow): (Option<int>, Option<int>) { (r.clusId, r.vidId) }
  function ClusLok(r: CluRow): (Option<int>, Option<int>) { (r.clusId, r.lokId) }
  function LokVid(r: CluRow): (Option<int>, Option<int>) { (r.lokId, r.vidId) }
  function SamJila(r: SmRow): (Option<int>, Option<int>) { (r.samId, r.jilaId) }
  function SamVid(r: SmRow): (Option<int>, Option<int>) { (r.samId, r.vidId) }
  function JilaVid(r: SmRow): (Option<int>, Option<int>) { (r.jilaId, r.vidId) }

  function CluVidItem(r: CluRow): Item { Item(r.vidId, r.vidName) }
  function CluLokItem(r: CluRow): Item { Item(r.lokId, r.lokName) }
  function SmJilaItem(r: SmRow): Item { Item(r.jilaId, r.jilaName) }
  function SmVidItem(r: SmRow): Item { Item(r.vidId, r.vidName) }

  /** The rows where both columns of a pair are non-null. */
  function BothSet<T>(pair: T -> (Option<int>, Option<int>)): T -> bool
  {
    (r: T) => pair(r).0.Some? && pair(r).1.Some?
  }

  /** `getVidhanSabhaInCluster`: `GROUP BY CLUS_ID, VID_ID` over `cludata`. */
  function VidhanSabhaInCluster(db: Db): (r: Report<Anc, Option<int>, Item>)
    ensures r.totalColumnCount == |DistinctBy(Filter(db.clu, BothSet(ClusVid)), ClusVid)|
    ensures Lists(r, AncLabels("cluster", "vid"), Clusters(db),
                  PushedUnder(DistinctBy(Filter(db.clu, BothSet(ClusVid)), ClusVid), AncId, CClus, CluVidItem))
    ensures forall i :: 0 <= i < |r.countData| ==>
              r.countData[i].count == |KeysOf(Filter(Filter(db.clu, BothSet(ClusVid)), HasKey(CClus, r.countData[i].id)), ClusVid)|
  {
    GroupedPush(Clusters(db), Filter(db.clu, BothSet(ClusVid)), ClusVid, CClus, AncId, CluVidItem, AncLabels("cluster", "vid"))
  }

  /** `getLokSabhaInCluster`: `GROUP BY CLUS_ID, LOK_ID` over `cludata`. */
  function LokSabhaInCluster(db: Db): (r: Report<Anc, Option<int>, Item>)
    ensures r.totalColumnCount == |DistinctBy(Filter(db.clu, BothSet(ClusLok)), ClusLok)|
    ensures Lists(r, AncLabels("cluster", "lok"), Clusters(db),
                  PushedUnder(DistinctBy(Filter(db.clu, BothSet(ClusLok)), ClusLok), AncId, CClus, CluLokItem))
    ensures forall i :: 0 <= i < |r.countData| ==>
              r.countData[i].count == |KeysOf(Filter(Filter(db.clu, BothSet(ClusLok)), HasKey(CClus, r.countData[i].id)), ClusLok)|
  {
    GroupedPush(Clusters(db), Filter(db.clu, BothSet(ClusLok)), ClusLok, CClus, AncId, CluLokItem, AncLabels("cluster", "lok"))
  }

  /** `getVidhanSabhaInLokSabha`: `GROUP BY LOK_ID, VID_ID` over `cludata`. */
  function VidhanSabhaInLokSabha(db: Db): (r: Report<Anc, Option<int>, Item>)
    ensures r.totalColumnCount == |DistinctBy(Filter(db.clu, BothSet(LokVid)), LokVid)|
    ensures Lists(r, AncLabels("lok", "vid"), LokSabhas(db),
                  PushedUnder(DistinctBy(Filter(db.clu, BothSet(LokVid)), LokVid), AncId, CLok, CluVidItem))
    ensures forall i :: 0 <= i < |r.countData| ==>
              r.countData[i].count == |KeysOf(Filter(Filter(db.clu, BothSet(LokVid)), HasKey(CLok, r.countData[i].id)), LokVid)|
  {
    GroupedPush(LokSabhas(db), Filter(db.clu, BothSet(LokVid)), LokVid, CLok, AncId, CluVidItem, AncLabels("lok", "vid"))
  }

  /** `getJilaInSambhag`: `GROUP BY SAM_ID, JILA_ID` over `smdata`. */
  function JilaInSambhag(db: Db): (r: Report<Anc, Option<int>, Item>)
    ensures r.totalColumnCount == |DistinctBy(Filter(db.sm, BothSet(SamJila)), SamJila)|
    ensures Lists(r, AncLabels("sambhag", "jila"), Sambhags(db),
                  PushedUnder(DistinctBy(Filter(db.sm, BothSet(SamJila)), SamJila), AncId, SSam, SmJilaItem))
    ensures forall i :: 0 <= i < |r.countData| ==>
              r.countData[i].count == |KeysOf(Filter(Filter(db.sm, BothSet(SamJila)), HasKey(SSam, r.countData[i].id)), SamJila)|
  {
    GroupedPush(Sambhags(db), Filter(db.sm, BothSet(SamJila)), SamJila, SSam, AncId, SmJilaItem, AncLabels("sambhag", "jila"))
  }

  /** `getVidhanSabhaInSambhag`: `GROUP BY SAM_ID, VID_ID` over `smdata`. */
  function VidhanSabhaInSambhag(db: Db): (r: Report<Anc, Option<int>, Item>)
    ensures r.totalColumnCount == |DistinctBy(Filter(db.sm, BothSet(SamVid)), SamVid)|
    ensures Lists(r, AncLabels("sambhag", "vid"), Sambhags(db),
                  PushedUnder(DistinctBy(Filter(db.sm, BothSet(SamVid)), SamVid), AncId, SSam, SmVidItem))
    ensures forall i :: 0 <= i < |r.countData| ==>
              r.countData[i].count == |KeysOf(Filter(Filter(db.sm, BothSet(SamVid)), HasKey(SSam, r.countData[i].id)), SamVid)|
  {
    GroupedPush(Sambhags(db), Filter(db.sm, BothSet(SamVid)), SamVid, SSam, AncId, SmVidItem, AncLabels("sambhag", "vid"))
  }

  /** `getVidhanSabhaInJila`: `GROUP BY JILA_ID, VID_ID` over `smdata`. */
  function VidhanSabhaInJila(db: Db): (r: Report<Anc, Option<int>, Item>)
    ensures r.totalColumnCount == |DistinctBy(Filter(db.sm, BothSet(JilaVid)), JilaVid)|
    ensures Lists(r, AncLabels("jila", "vid"), Jilas(db),
                  PushedUnder(DistinctBy(Filter(db.sm, BothSet(JilaVid)), JilaVid), AncId, SJila, SmVidItem))
    ensures forall i :: 0 <= i < |r.countData| ==>
              r.countData[i].count == |KeysOf(Filter(Filter(db.sm, BothSet(JilaVid)), HasKey(SJila, r.countData[i].id)), JilaVid)|
  {
    GroupedPush(Jilas(db), Filter(db.sm, BothSet(JilaVid)), JilaVid, SJila, AncId, SmVidItem, AncLabels("jila", "vid"))
  }

  // ---------------------------------------------------------------------
  // Totals

  /** A non-null id in a table is the id of one of the grouped ancestors. */
  lemma AncestorListed<T(!new)>(rows: seq<T>, col: T -> Option<int>, name: T -> Option<string>, x: T)
    requires x in rows && col(x).Some?
    ensures col(x) in Map(GroupedIds(rows, col, name), AncId)
  {
    var i :| 0 <= i < |rows| && rows[i] == x;
    assert col(rows[i]) in KeysOf(rows, col);
    MapValues(GroupedIds(rows, col, name), AncId);
  }

  /** A report whose ancestors and children come from the same table lists
      every child under an ancestor, so its counts add up to
      `totalColumnCount`. */
  lemma {:induction false} SameTableAddsUp<T(!new)>(rows: seq<T>, pair: T -> (Option<int>, Option<int>),
                                                   col: T -> Option<int>, name: T -> Option<string>,
                                                   item: T -> Item, lb: Labels<Anc, Option<int>>)
    requires forall x :: pair(x).0 == col(x)
    ensures var r := GroupedPush(GroupedIds(rows, col, name), Filter(rows, BothSet(pair)), pair, col, AncId, item, lb);
            Sum(Map(r.countData, CountValue)) == r.totalColumnCount
  {
    var ancs := GroupedIds(rows, col, name);
    forall x | x in Filter(rows, BothSet(pair)) ensures col(x) in Map(ancs, AncId) {
      AncestorListed(rows, col, name, x);
    }
    GroupedPushSum(ancs, Filter(rows, BothSet(pair)), pair, col, AncId, item, lb);
  }

  /** The six reports over one table (`cludata` or `smdata`) count every
      grouped child exactly once. */
  lemma SameTableReportsAddUp(db: Db)
    ensures var r := VidhanSabhaInCluster(db); Sum(Map(r.countData, CountValue)) == r.totalColumnCount
    ensures var r := LokSabhaInCluster(db); Sum(Map(r.countData, CountValue)) == r.totalColumnCount
    ensures var r := VidhanSabhaInLokSabha(db); Sum(Map(r.countData, CountValue)) == r.totalColumnCount
    ensures var r := JilaInSambhag(db); Sum(Map(r.countData, CountValue)) == r.totalColumnCount
    ensures var r := VidhanSabhaInSambhag(db); Sum(Map(r.countData, CountValue)) == r.totalColumnCount
    ensures var r := VidhanSabhaInJila(db); Sum(Map(r.countData, CountValue)) == r.totalColumnCount
  {
    VidhanSabhaInClusterAddsUp(db);
    LokSabhaInClusterAddsUp(db);
    VidhanSabhaInLokSabhaAddsUp(db);
    JilaInSambhagAddsUp(db);
    VidhanSabhaInSambhagAddsUp(db);
    VidhanSabhaInJilaAddsUp(db);
  }

  lemma VidhanSabhaInClusterAddsUp(db: Db)
    ensures var r := VidhanSabhaInCluster(db); Sum(Map(r.countData, CountValue)) == r.totalColumnCount
  {
    SameTableAddsUp(db.clu, ClusVid, CClus, CClusNm, CluVidItem, AncLabels("cluster", "vid"));
  }

  lemma LokSabhaInClusterAddsUp(db: Db)
    ensures var r := LokSabhaInCluster(db); Sum(Map(r.countData, CountValue)) == r.totalColumnCount
  {
    SameTableAddsUp(db.clu, ClusLok, CClus, CClusNm, CluLokItem, AncLabels("cluster", "lok"));
  }

  lemma VidhanSabhaInLokSabhaAddsUp(db: Db)
    ensures var r := VidhanSabhaInLokSabha(db); Sum(Map(r.countData, CountValue)) == r.totalColumnCount
  {
    SameTableAddsUp(db.clu, LokVid, CLok, CLokNm, CluVidItem, AncLabels("lok", "vid"));
  }

  lemma JilaInSambhagAddsUp(db: Db)
    ensures var r := JilaInSambhag(db); Sum(Map(r.countData, CountValue)) == r.totalColumnCount
  {
    SameTableAddsUp(db.sm, SamJila, SSam, SSamNm, SmJilaItem, AncLabels("sambhag", "jila"));
  }

  lemma VidhanSabhaInSambhagAddsUp(db: Db)
    ensures var r := VidhanSabhaInSambhag(db); Sum(Map(r.countData, CountValue)) == r.totalColumnCount
  {
    SameTableAddsUp(db.sm, SamVid, SSam, SSamNm, SmVidItem, AncLabels("sambhag", "vid"));
  }

  lemma VidhanSabhaInJilaAddsUp(db: Db)
    ensures var r := VidhanSabhaInJila(db); Sum(Map(r.countData, CountValue)) == r.totalColumnCount
  {
    SameTableAddsUp(db.sm, JilaVid, SJila, SJilaNm, SmVidItem, AncLabels("jila", "vid"));
  }


  /** The mandal reports over a second table never count more children
      than `totalColumnCount`: a row whose ancestor column is null, or
      names no grouped ancestor, is in the total but under no ancestor. */
  lemma MandalReportsBounded(db: Db)
    ensures var r := MandalsInSambhag(db); Sum(Map(r.countData, CountValue)) <= r.totalColumnCount
    ensures var r := MandalsInVidhanSabha(db); Sum(Map(r.countData, CountValue)) <= r.totalColumnCount
    ensures var r := MandalsInLokSabha(db); Sum(Map(r.countData, CountValue)) <= r.totalColumnCount
    ensures var r := MandalsInJila(db); Sum(Map(r.countData, CountValue)) <= r.totalColumnCount
  {
    MandalsInSambhagBounded(db);
    MandalsInVidhanSabhaBounded(db);
    MandalsInLokSabhaBounded(db);
    MandalsInJilaBounded(db);
  }

  lemma MandalsInSambhagBounded(db: Db)
    ensures var r := MandalsInSambhag(db); Sum(Map(r.countData, CountValue)) <= r.totalColumnCount
  {
    GroupedPushSum(Sambhags(db), SambhagMandalSource(db), SambhagMandalKey, JSam, AncId, SManItem, AncLabels("sambhag", "mandal"));
  }

  lemma MandalsInVidhanSabhaBounded(db: Db)
    ensures var r := MandalsInVidhanSabha(db); Sum(Map(r.countData, CountValue)) <= r.totalColumnCount
  {
    GroupedPushSum(VidhanSabhas(db), VidMandalSource(db), VidMan, VVid, AncId, VdManItem, AncLabels("vid", "mandal"));
  }

  lemma MandalsInLokSabhaBounded(db: Db)
    ensures var r := MandalsInLokSabha(db); Sum(Map(r.countData, CountValue)) <= r.totalColumnCount
  {
    GroupedPushSum(LokSabhas(db), LokMandalSource(db), LokMandalKey, JLok, AncId, CManItem, AncLabels("lok", "mandal"));
  }

  lemma MandalsInJilaBounded(db: Db)
    ensures var r := MandalsInJila(db); Sum(Map(r.countData, CountValue)) <= r.totalColumnCount
  {
    GroupedPushSum(Jilas(db), SambhagMandalSource(db), JilaMandalKey, JJila, AncId, SManItem, AncLabels("jila", "mandal"));
  }


  /** The same bound for the sakha reports. */
  lemma SakhaReportsBounded(db: Db)
    ensures var r := SakhasInCluster(db); Sum(Map(r.countData, CountValue)) <= r.totalColumnCount
    ensures var r := SakhasInSambhag(db); Sum(Map(r.countData, CountValue)) <= r.totalColumnCount
    ensures var r := SakhasInLokSabha(db); Sum(Map(r.countData, CountValue)) <= r.totalColumnCount
    ensures var r := SakhasInVidhanSabha(db); Sum(Map(r.countData, CountValue)) <= r.totalColumnCount
    ensures var r := SakhasInJila(db); Sum(Map(r.countData, CountValue)) <= r.totalColumnCount
  {
    SakhasInClusterBounded(db);
    SakhasInSambhagBounded(db);
    SakhasInLokSabhaBounded(db);
    SakhasInVidhanSabhaBounded(db);
    SakhasInJilaBounded(db);
  }

  lemma SakhasInClusterBounded(db: Db)
    ensures var r := SakhasInCluster(db); Sum(Map(r.countData, CountValue)) <= r.totalColumnCount
  {
    GroupedPushSum(Clusters(db), ClusterSakhaSource(db), ClusVidSak, JClus, AncId, CSakhaItem, AncLabels("cluster", "sakha"));
  }

  lemma SakhasInSambhagBounded(db: Db)
    ensures var r := SakhasInSambhag(db); Sum(Map(r.countData, CountValue)) <= r.totalColumnCount
  {
    GroupedPushSum(Sambhags(db), SambhagSakhaSource(db), SamVidSak, JSam, AncId, SSakhaItem, AncLabels("sambhag", "sakha"));
  }

  lemma SakhasInLokSabhaBounded(db: Db)
    ensures var r := SakhasInLokSabha(db); Sum(Map(r.countData, CountValue)) <= r.totalColumnCount
  {
    GroupedPushSum(LokSabhas(db), LokSakhaSource(db), LokVidSak, JLok, AncId, CSakhaItem, AncLabels("lok", "sakha"));
  }

  lemma SakhasInVidhanSabhaBounded(db: Db)
    ensures var r := SakhasInVidhanSabha(db); Sum(Map(r.countData, CountValue)) <= r.totalColumnCount
  {
    GroupedPushSum(VidhanSabhas(db), VidSakhaSource(db), VidSak, VVid, AncId, VdSakItem, AncLabels("vid", "sakha"));
  }

  lemma SakhasInJilaBounded(db: Db)
    ensures var r := SakhasInJila(db); Sum(Map(r.countData, CountValue)) <= r.totalColumnCount
  {
    GroupedPushSum(Jilas(db), JilaSakhaSource(db), JilaVidSak, JJila, AncId, SSakhaItem, AncLabels("jila", "sakha"));
  }

}
