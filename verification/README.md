# A Dafny model of the hierarchy, grouping-report and booth-update core

The service behind this model answers questions about an electoral
organisation hierarchy: clusters and sambhags at the top, then jilas, Lok
Sabhas and Vidhan Sabhas, then mandals, sakhas and polling booths. Three
tables hold the hierarchy: `cludata` (cluster, Lok Sabha, Vidhan Sabha),
`smdata` (sambhag, jila, Vidhan Sabha) and `vddata` (Vidhan Sabha, mandal,
sakha, booth). Every query result is an input sequence of row records
here, with SQL NULL as `None`. A `DISTINCT` keeps the first row of each key
in table order.

The model covers three parts of the service.

- **The multi-filter hierarchy endpoint.** These members are in
  `hierarchy.dfy`, `cachekey.dfy` and `cache.dfy`. They cover:
  - the canonical cache key of a query;
  - the id-list parser, with JavaScript `parseInt` semantics;
  - the choice of the single deepest filter;
  - the Lok Sabha, Vidhan Sabha and leaf-row selections, including the
    `[-1]` sentinel;
  - the bottom-up Lok Sabha → Vidhan Sabha → mandal → sakha → booth tree;
  - the composite-key summary counts;
  - the one-hour read-through cache in front of it all.
- **The admin grouping reports.** These are in `admin.dfy`,
  `adminbooth.dfy` and `grouping.dfy`. About twenty handlers group child
  rows under an ancestor list, and one generic fold models them all:
  - push without dedup;
  - dedup in a `Map` on a composite key, where the first insertion
    position is kept and the last value wins;
  - dedup with a `some` check;
  - membership of a Vidhan Sabha list, visited in JavaScript `for…in` key
    order.

  The booth reports also sit behind a one-day cache.
- **The user endpoints.** These are in `boothupdate.dfy`,
  `blockreport.dfy` and `mapcsv.dfy`. They cover:
  - the single and bulk booth-update validators and their database effect;
  - the combined R+U block report, which sums with `Number(v) || 0`, so
    infinities are possible;
  - the district report over the columns `c1`…`c84`;
  - the CSV bodies sent to the map service.

JavaScript values (`null`, booleans, numbers with their printed text,
strings) are modelled in `jstext.dfy`. That file also gives `String()`,
`Number()`, `parseInt`, `trim` and truthiness. `Number()` is exact over
the reals, with NaN and the infinities as separate values. `seqs.dfy`,
`sorting.dfy` and `tables.dfy` hold the sequence toolkit, the JavaScript
default sort and the table rows.

Some behaviour of the code is easy to miss. The model keeps the code's
behaviour in each case.

- The 400 answer of the single booth update
  (`src/controller/user.controller.ts:1082`) says an empty `slr_per` clears
  the value. The code stores 0 instead, because `Number("")` is 0 and the
  range check comes before the blank check (`BoothUpdate.SlrBlankStoresZero`).
  The bulk update does the same.
- A map CSV body ends in a line feed only when the table is empty: it is
  then the header followed by `\n` (`MapCsv.EmptyCsvTrailingLine`). Only the
  map GET handlers (`src/controller/user.controller.ts:623`, `695`, `767`)
  can send that body. The update and create handlers reject an empty list
  before building a CSV.
- The hierarchy early exit (`src/controller/hierarchy.controller.ts:1552`)
  answers with a summary that has no `sambhag` or `jila` field.

The handlers of the model use the code as written.

- The hierarchy tree names each sakha with `Hierarchy.SakhaNameAsWritten`.
  That lookup matches a sakha row by sakha and mandal but not by Vidhan
  Sabha.
- The single and bulk booth updates read `slr_per` with
  `BoothUpdate.SlrAsWritten`, through `BoothUpdate.SlrOf`.
- The bulk transaction is `BoothUpdate.CommitBulkAsWritten`. It increments
  a NULL update counter to NULL.

`Hierarchy.SakhaName`, `BoothUpdate.Slr` and `BoothUpdate.CommitBulk` are
the corrected variants listed under Findings. Each comes with the property
the code evidently intends.

## Model

| member | source | states |
|---|---|---|
| CacheKey.HierarchyCacheKey | src/controller/hierarchy.controller.ts:1420-1446 | every key, for every query, begins with `hierarchy:multiple:` |
| CacheKey.KeyInNameOrder | src/controller/hierarchy.controller.ts:1440-1445 | the key is the prefix then one `name:value` segment per contributing filter, in ascending name order, joined by `\|` |
| CacheKey.KeyIgnoresOtherParams | src/controller/hierarchy.controller.ts:1422-1428 | two queries that agree on the eight filter names have the same key, whatever their other parameters |
| CacheKey.KeyCongruent | src/controller/hierarchy.controller.ts:1427-1438 | the key depends only on which filters contribute and on their canonical value strings |
| CacheKey.KeyPermutation | src/controller/hierarchy.controller.ts:1430-1432 | permuting the values of one parameter leaves the key unchanged |
| CacheKey.CanonicalPermutation | src/controller/hierarchy.controller.ts:1430-1432 | two value lists with the same multiset of pieces canonicalise alike |
| CacheKey.KeyArrayOrString | src/controller/hierarchy.controller.ts:1430-1432 | an array of values and the same values joined by commas give the same key |
| CacheKey.KeyNonContributing | src/controller/hierarchy.controller.ts:1428-1437 | an absent, falsy or empty-valued parameter adds no segment: any two such values give the same key |
| CacheKey.EmptyQueryKey | src/controller/hierarchy.controller.ts:1445 | an empty query yields exactly the prefix |
| CacheKey.SingleParamKey | src/controller/hierarchy.controller.ts:1440-1445 | one contributing parameter yields prefix + name + `:` + its canonical value |
| CacheKey.TwoValuesKey | src/controller/hierarchy.controller.ts:1432 | a two-value string is re-ordered by string order of its pieces |
| CacheKey.StringOrderOfValues | src/controller/hierarchy.controller.ts:1432 | `clusterId=9,10` keys as `clusterId:10,9`: values sort as strings, not numbers |
| CacheKey.SortedArrayKey | src/controller/hierarchy.controller.ts:1431 | an already sorted array keys as its own comma join |
| CacheKey.DuplicatesKept | src/controller/hierarchy.controller.ts:1431-1432 | duplicates are not removed: `[x,x,y]` and `[x,y]` give different keys |
| Sorting.SortedUnique | src/controller/hierarchy.controller.ts:1441 | under a total order two sorted permutations of one multiset are equal, so the modelled sort agrees with any correct sort |
| Sorting.SortPermutation | src/controller/hierarchy.controller.ts:1431-1432 | sorting two permutations of one list gives one result |
| Sorting.LexTotalOrder | src/controller/hierarchy.controller.ts:1441 | code-unit string comparison, the default array sort order, is a total order |
| Hierarchy.ParseMultiIds | src/controller/hierarchy.controller.ts:1469-1475 | an absent or empty parameter gives no ids; otherwise the ids are the parsed pieces of the value |
| Hierarchy.ParsedPieces | src/controller/hierarchy.controller.ts:1472-1474 | an id is in the list iff some piece parses to it under `parseInt`; NaN pieces are dropped, so the list is never longer than the pieces |
| Hierarchy.ParseIdsArrayRoundTrip | src/controller/hierarchy.controller.ts:1471-1472 | an array of printed integers parses back to the same ids in order |
| Hierarchy.ParseIdsStringRoundTrip | src/controller/hierarchy.controller.ts:1474 | a comma-joined list of printed integers parses back to the same ids in order |
| JsText.ParseIntRoundTrip | src/controller/hierarchy.controller.ts:1472 | `parseInt` of a printed integer gives that integer back |
| JsText.NumberRoundTrip | src/controller/user.controller.ts:1052 | `Number()` of a printed integer gives that integer back |
| JsText.TrimSpaces | src/controller/user.controller.ts:1060-1061 | a trimmed string is empty iff the input was all white space |
| JsText.ForInOrder | src/controller/admin.controller.ts:881 | `for…in` visits a permutation of the object's keys |
| JsText.ForInAllIndices | src/controller/admin.controller.ts:881 | when every key is an array index, `for…in` visits the keys in ascending numeric order |
| JsText.UnderscoreKeyInjective | src/controller/admin.controller.ts:712-723 | `${VID_ID}_${MAN_ID}` keys are equal iff both ids are equal |
| Hierarchy.Deepest | src/controller/hierarchy.controller.ts:1487-1495 | no filter iff every list is empty; otherwise the chosen level is non-empty and every deeper level is empty |
| Hierarchy.LeafFilterOf | src/controller/hierarchy.controller.ts:1585-1591 | booth ids win over sakha ids, which win over mandal ids; only one of the three constrains the leaf query |
| Hierarchy.DerivedVids | src/controller/hierarchy.controller.ts:1500-1516 | with no sambhag or jila filter nothing is derived; otherwise a Vidhan Sabha is derived iff an `smdata` row matching both lists names it |
| Hierarchy.LokRows | src/controller/hierarchy.controller.ts:1519-1547 | every row kept is a selected `cludata` row, every selected row's (LOK, CLUS) key is present, and keys are distinct |
| Hierarchy.LokIds | src/controller/hierarchy.controller.ts:1549 | the Lok Sabha ids are exactly the non-null LOK_IDs of the rows |
| Hierarchy.EarlyExitWhenNoLok | src/controller/hierarchy.controller.ts:1549-1553 | the early exit is taken iff every selected Lok Sabha row has a null LOK_ID |
| Hierarchy.UnmatchedSambhagSelectsAll | src/controller/hierarchy.controller.ts:1524-1535 | with no cluster or Lok Sabha filter and no derived Vidhan Sabha, the Lok Sabha query keeps every distinct row |
| Hierarchy.VidRows | src/controller/hierarchy.controller.ts:1555-1573 | the Vidhan Sabha rows are exactly the distinct selected rows under the resolved Lok Sabhas; an explicit vid filter replaces the derived set |
| Hierarchy.VidIds | src/controller/hierarchy.controller.ts:1575 | the Vidhan Sabha ids are exactly the non-null VID_IDs of the rows |
| Hierarchy.LeafRows | src/controller/hierarchy.controller.ts:1580-1601 | the leaf rows are exactly the distinct `vddata` rows inside the Vidhan Sabha list that meet the deepest leaf filter |
| Hierarchy.SentinelSelectsNothing | src/controller/hierarchy.controller.ts:1581 | an empty Vidhan Sabha list selects no leaf row, because no row has VID_ID -1 |
| Hierarchy.FinalVids | src/controller/hierarchy.controller.ts:1615-1621 | a Vidhan Sabha is final iff some leaf row with all four ids truthy names it |
| Hierarchy.MandalIds | src/controller/hierarchy.controller.ts:1624-1627 | the mandals under a Vidhan Sabha are distinct and exactly those of its grouped rows |
| Hierarchy.SakhaIds | src/controller/hierarchy.controller.ts:1626-1628 | the sakhas under a mandal are distinct and exactly those of its grouped rows |
| Hierarchy.BoothsOf | src/controller/hierarchy.controller.ts:1628-1629 | a booth is under a sakha iff a grouped row with those ids carries it |
| Hierarchy.NameOrNull | src/controller/hierarchy.controller.ts:1641 | `?.NAME \|\| null` is a name iff a row was found and its name is non-empty |
| Hierarchy.MandalName | src/controller/hierarchy.controller.ts:1641 | a mandal's name comes from a fetched row of that Vidhan Sabha and mandal |
| Hierarchy.SakhaNameAsWritten | src/controller/hierarchy.controller.ts:1646 | the lookup as written matches only MAN_ID and SAK_ID |
| Hierarchy.SakhaName | src/controller/hierarchy.controller.ts:1646 | corrected, not used by the tree: the name comes from a row of the same Vidhan Sabha, mandal and sakha |
| Hierarchy.SakhaNameCrossesVidhanSabhas | src/controller/hierarchy.controller.ts:1646 | two Vidhan Sabhas sharing mandal and sakha ids: the lookup as written labels the second with the first's name |
| Hierarchy.TreeShowsCrossedName | src/controller/hierarchy.controller.ts:1642-1647 | in the tree of those two Vidhan Sabhas, sakha 1 under mandal 1 of the second is named Alpha |
| Hierarchy.SakhaNodeFacts | src/controller/hierarchy.controller.ts:1642-1647 | every sakha node carries the booths of its grouped rows and the name the lookup as written finds |
| Hierarchy.TreeFromRows | src/controller/hierarchy.controller.ts:1624-1649 | every booth in a Vidhan Sabha's mandal list comes from a fetched row with those Vidhan Sabha, mandal and sakha ids |
| Hierarchy.SakhasHaveBooths | src/controller/hierarchy.controller.ts:1642-1649 | every emitted sakha has at least one booth |
| Hierarchy.MandalFilterKeepsAll | src/controller/hierarchy.controller.ts:1650 | the filter on empty mandals never removes one: every grouped mandal has a sakha |
| Hierarchy.FinalVidsHaveMandals | src/controller/hierarchy.controller.ts:1635-1652 | every final Vidhan Sabha has at least one mandal |
| Hierarchy.VidsHaveMandals | src/controller/hierarchy.controller.ts:1652-1655 | every Vidhan Sabha entry pushed under a Lok Sabha has a mandal |
| Hierarchy.LoksHaveVids | src/controller/hierarchy.controller.ts:1659-1666 | every emitted Lok Sabha has at least one Vidhan Sabha |
| Hierarchy.CompositeKeys | src/controller/hierarchy.controller.ts:1611-1620 | the dash-joined mandal, sakha and booth keys are equal iff their id tuples are equal |
| Hierarchy.SummaryCountsNest | src/controller/hierarchy.controller.ts:1686-1695 | vidhanSabha ≤ mandal ≤ sakha ≤ booth in every summary |
| Hierarchy.BoothCountIsRows | src/controller/hierarchy.controller.ts:1694 | with distinct leaf rows, the booth count is the number of complete rows |
| Hierarchy.Resolve | src/controller/hierarchy.controller.ts:1549-1553 | resolution exits early iff no selected row has a Lok Sabha id (the resolved payload is described by `ResolvedBoothsSelected`, `NoRowsNoData` and `SakhaNodeFacts`) |
| Hierarchy.ResolvedBoothsSelected | src/controller/hierarchy.controller.ts:1580-1629 | every booth in a resolved answer lies in a selected Vidhan Sabha and meets the leaf filter |
| Hierarchy.NoRowsNoData | src/controller/hierarchy.controller.ts:1669-1695 | without a complete leaf row the answer is all-zero counts and no data |
| Hierarchy.Handle | src/controller/hierarchy.controller.ts:1454-1707 | a hit returns the stored payload with `cached: true` and keeps the cache; an early exit stores nothing; a miss stores the resolved payload for 3600 s and returns it with `cached: false` |
| Hierarchy.HitIgnoresDatabase | src/controller/hierarchy.controller.ts:1458-1466 | on a hit the answer does not depend on the tables |
| Hierarchy.RepeatWithinHourIsCached | src/controller/hierarchy.controller.ts:1455-1466 | a query with the same key within the hour after a miss is answered from the cache with the first payload, even if the tables changed |
| Hierarchy.EarlyExitNotCached | src/controller/hierarchy.controller.ts:1550-1553 | the early exit leaves the cache unchanged and the key still missing |
| Cache.Get | src/controller/hierarchy.controller.ts:1458-1460 | a lookup hits iff the key is stored and not expired, and returns the stored value |
| Cache.Put | src/controller/hierarchy.controller.ts:1705 | a store adds the key and changes no other entry |
| Cache.GetPut | src/controller/hierarchy.controller.ts:1705 | a stored value is read back throughout its time to live and is gone exactly when it ends |
| Cache.GetPutOther | src/controller/admin.controller.ts:913 | storing one key does not change any other key's lookup |
| Cache.ReadThrough | src/controller/admin.controller.ts:836-916 | a hit serves the stored value marked cached and keeps the cache; a miss serves the computed value and stores it |
| Cache.ReadThroughHit | src/controller/admin.controller.ts:839-846 | on a hit the computed value is ignored |
| Cache.ReadThroughThenHit | src/controller/admin.controller.ts:839-913 | after a miss, a request within the time to live is served the first value |
| Grouping.GroupFold | src/controller/admin.controller.ts:67-78 | the grouping dictionary has exactly the keys of the child rows |
| Grouping.GroupFoldState | src/controller/admin.controller.ts:69-78 | the state under a key is the fold over exactly that key's rows, in row order |
| Grouping.FoldPush | src/controller/admin.controller.ts:138-141 | pushing rows builds their projections in order: no dedup |
| Grouping.FoldMapSetKeys | src/controller/admin.controller.ts:73-77 | `Map.set` keeps each unique id once, at its first insertion position |
| Grouping.FoldMapSetValues | src/controller/admin.controller.ts:73-77 | each `Map` entry holds the value of the last row with that id |
| Grouping.FoldMapSetCount | src/controller/admin.controller.ts:82-88 | the `Map`'s size is the number of distinct unique ids |
| Grouping.FoldSome | src/controller/admin.controller.ts:712-723 | pushing only when `some` finds no equal id keeps the first item per id |
| Grouping.MakeReport | src/controller/admin.controller.ts:94-107 | one count entry per group, each count the group's list length |
| Grouping.PushReport | src/controller/admin.controller.ts:117-168 | each ancestor, in order, lists its child rows; `totalColumnCount` is the raw child-row count |
| Grouping.EmptyAncestorListed | src/controller/admin.controller.ts:81-100 | an ancestor with no child rows is still listed, with count 0 and an empty list |
| Grouping.PushCountsSum | src/controller/admin.controller.ts:143-162 | the counts add up to the child rows whose key names an ancestor, never more than `totalColumnCount` |
| Grouping.PushCountsComplete | src/controller/admin.controller.ts:143-162 | when every child names a listed ancestor, the counts add up to `totalColumnCount` |
| Grouping.GroupedPush | src/controller/admin.controller.ts:240-292 | over a `GROUP BY` child query, each count is the number of distinct group keys among that ancestor's rows |
| Grouping.GroupedPushSum | src/controller/admin.controller.ts:240-292 | the counts of a grouped report never exceed `totalColumnCount`, and equal it when every row's ancestor is listed |
| Admin.GroupedIds | src/controller/admin.controller.ts:45-51 | the ancestors are one row per distinct non-null id |
| Admin.MandleInCluster | src/controller/admin.controller.ts:42-113 | one entry per cluster; each lists its `VID-MAN` map; each count is the number of distinct (VID_ID, MAN_ID) pairs among its rows; the total is the raw joined-row count |
| Admin.MandalCount | src/controller/admin.controller.ts:69-88 | a cluster's mandal count is the number of distinct (VID_ID, MAN_ID) pairs among its rows |
| Admin.UniqueIdInjective | src/controller/admin.controller.ts:56 | `CONCAT(VID_ID,'-',MAN_ID)` values are equal iff both ids are |
| Admin.MandleLastWins | src/controller/admin.controller.ts:73-77 | each listed mandal carries the values of the last joined row with its unique id |
| Admin.MandalsInSambhag | src/controller/admin.controller.ts:117-168 | one entry per sambhag listing its grouped mandal rows; each count is the number of distinct keys among its rows |
| Admin.MandalsInVidhanSabha | src/controller/admin.controller.ts:171-235 | the same for Vidhan Sabhas over distinct (VID_ID, MAN_ID) |
| Admin.MandalsInLokSabha | src/controller/admin.controller.ts:240-292 | the same for Lok Sabhas |
| Admin.MandalsInJila | src/controller/admin.controller.ts:294-346 | the same for jilas |
| Admin.SakhasInCluster | src/controller/admin.controller.ts:353-410 | one entry per cluster; each count is the number of distinct sakha keys among its rows |
| Admin.SakhasInSambhag | src/controller/admin.controller.ts:413-470 | the same for sambhags |
| Admin.SakhasInLokSabha | src/controller/admin.controller.ts:473-540 | the same for Lok Sabhas |
| Admin.SakhasInVidhanSabha | src/controller/admin.controller.ts:544-598 | the same for Vidhan Sabhas |
| Admin.SakhasInJila | src/controller/admin.controller.ts:601-680 | the same for jilas |
| Admin.SakhasInMandal | src/controller/admin.controller.ts:684-756 | one entry per (VID, MAN) mandal keyed `${VID}_${MAN}`; the total is the number of named sakha rows |
| Admin.SomeKeepsUnique | src/controller/admin.controller.ts:712-723 | with distinct sakha rows per mandal, the `some` check never drops a row |
| Admin.VidhanSabhaInCluster | src/controller/admin.controller.ts:1498-1563 | one entry per cluster listing its distinct Vidhan Sabhas |
| Admin.LokSabhaInCluster | src/controller/admin.controller.ts:1566-1631 | one entry per cluster listing its distinct Lok Sabhas |
| Admin.VidhanSabhaInLokSabha | src/controller/admin.controller.ts:1634-1699 | one entry per Lok Sabha listing its distinct Vidhan Sabhas |
| Admin.JilaInSambhag | src/controller/admin.controller.ts:1701-1766 | one entry per sambhag listing its distinct jilas |
| Admin.VidhanSabhaInSambhag | src/controller/admin.controller.ts:1769-1834 | one entry per sambhag listing its distinct Vidhan Sabhas |
| Admin.VidhanSabhaInJila | src/controller/admin.controller.ts:1836-1901 | one entry per jila listing its distinct Vidhan Sabhas |
| Admin.SameTableReportsAddUp | src/controller/admin.controller.ts:1498-1901 | in the six reports over one table, the counts add up to exactly `totalColumnCount` |
| Admin.MandalReportsBounded | src/controller/admin.controller.ts:117-346 | in the mandal reports, the counts never exceed `totalColumnCount` |
| Admin.SakhaReportsBounded | src/controller/admin.controller.ts:353-680 | in the sakha reports, the counts never exceed `totalColumnCount` |
| AdminBooths.SummedReport | src/controller/admin.controller.ts:879-910 | `totalColumnCount` is the running sum, so it equals the sum of the counts |
| AdminBooths.VidListsFacts | src/controller/admin.controller.ts:861-871 | the Vidhan Sabha lists come in `for…in` order of their ids; each holds its id's rows' VID_IDs in row order, with the first row's name |
| AdminBooths.BoothInCluster | src/controller/admin.controller.ts:835-920 | one entry per cluster in `for…in` order; each lists the booth rows whose VID is in its list; the counts sum to the total |
| AdminBooths.BoothInLokSabha | src/controller/admin.controller.ts:1024-1110 | the same over Lok Sabhas, with string ids |
| AdminBooths.ClusterVidListContents | src/controller/admin.controller.ts:861-871 | a cluster's list holds exactly the Vidhan Sabhas of its `cludata` rows |
| AdminBooths.ClusterBoothListed | src/controller/admin.controller.ts:881-894 | a booth of a Vidhan Sabha under a cluster is listed under that cluster |
| AdminBooths.DistinctNamed | src/controller/admin.controller.ts:944-949 | the ancestors are the distinct (id, name) pairs with a non-null id |
| AdminBooths.VidsUnder | src/controller/admin.controller.ts:958-965 | an ancestor's Vidhan Sabha list is exactly the VIDs of its `smdata` rows |
| AdminBooths.BoothsInVids | src/controller/admin.controller.ts:978-986 | an ancestor's booth count is the number of distinct (BT_ID, BT_NM) pairs inside its Vidhan Sabhas |
| AdminBooths.EmptyVidListGuard | src/controller/admin.controller.ts:967-975 | the empty-list guard gives the same count 0 and empty list that the query would |
| AdminBooths.BoothInSambhag | src/controller/admin.controller.ts:926-1020 | one entry per distinct sambhag with its booths; the counts sum to the total |
| AdminBooths.BoothInJila | src/controller/admin.controller.ts:1193-1286 | one entry per distinct jila with its booths; the counts sum to the total |
| AdminBooths.BoothInVidhanSabha | src/controller/admin.controller.ts:1113-1190 | one entry per Vidhan Sabha listing its distinct booths |
| AdminBooths.BoothInMandal | src/controller/admin.controller.ts:1288-1390 | one entry per named mandal listing its distinct booths |
| AdminBooths.BoothInSakha | src/controller/admin.controller.ts:1392-1495 | one entry per named sakha listing its distinct booths |
| AdminBooths.MandalBoothsAddUp | src/controller/admin.controller.ts:1288-1390 | in the mandal booth report, the counts add up to exactly `totalColumnCount` |
| AdminBooths.BoothReportsBounded | src/controller/admin.controller.ts:1113-1495 | in the sakha and Vidhan Sabha booth reports, the counts never exceed `totalColumnCount` |
| AdminBooths.UnnamedSakhaBoothsUnlisted | src/controller/admin.controller.ts:1392-1495 | a booth of a sakha with no name is in the total but under no listed sakha |
| AdminBooths.ServeBoothReport | src/controller/admin.controller.ts:836-916 | a hit serves the stored report marked cached; a miss serves the computed report and keeps it for a day; other keys are untouched |
| AdminBooths.BoothCacheKeysDistinct | src/controller/admin.controller.ts:836 | the seven booth reports have seven different cache keys |
| AdminBooths.BoothReportStaleForADay | src/controller/admin.controller.ts:913 | within 86400 s of a miss the first report is served again, even if the tables changed |
| BoothUpdate.NameValue | src/controller/user.controller.ts:1059-1063 | the name is cleared iff it is all white space; otherwise it is stored without leading or trailing space |
| BoothUpdate.MobileValue | src/controller/user.controller.ts:1065-1069 | a stored number is a non-empty string of digits; the field is cleared iff the text has no digit |
| BoothUpdate.DigitsKept | src/controller/user.controller.ts:1066 | a digits-only number is stored unchanged |
| BoothUpdate.SlrAsWritten | src/controller/user.controller.ts:1071-1083 | as written: a value is accepted iff its `Number()` lies in [0, 100]; the accepted number is stored |
| BoothUpdate.SlrClearUnreachable | src/controller/user.controller.ts:1077-1079 | as written, the clearing branch is never reached |
| BoothUpdate.SlrBlankStoresZero | src/controller/user.controller.ts:1071-1079 | as written, an empty or all-blank `slr_per` stores 0 rather than clearing the column |
| BoothUpdate.Slr | src/controller/user.controller.ts:1071-1083 | corrected: blank clears; otherwise accepted iff the number lies in [0, 100], and that number is stored |
| BoothUpdate.SlrRejectsAlike | src/controller/user.controller.ts:1071-1083 | the check as written and the corrected one reject exactly the same values |
| BoothUpdate.SlrAgreesOffBlank | src/controller/user.controller.ts:1071-1083 | on non-blank input the corrected check and the one as written agree |
| BoothUpdate.Status | src/controller/user.controller.ts:1085-1096 | `VALUE_0`/`VALUE_1`/`VALUE_2` are stored as given, `''` clears, and anything else is rejected |
| BoothUpdate.SingleUpdate | src/controller/user.controller.ts:1048-1100 | a bad id is rejected first; a null or non-string name throws; then a `slr_per` the check as written refuses rejects, exactly when the id and name were fine; a bad status rejects; no field present means nothing to update; an update happens only when every present field passed its check |
| BoothUpdate.SingleChangesFields | src/controller/user.controller.ts:1059-1096 | a column is written iff its field is present: the trimmed name, the digits of the mobile number, the percentage the check as written accepts (0 for a blank value), and the status |
| BoothUpdate.SingleBlankSlrStoresZero | src/controller/user.controller.ts:1071-1079 | a single update with a blank `slr_per` and otherwise valid fields writes 0 to the percentage |
| BoothUpdate.SingleUpdateIdempotent | src/controller/user.controller.ts:1059-1096 | resubmitting the values an update would store yields the same update |
| BoothUpdate.PrepareOp | src/controller/user.controller.ts:1146-1203 | an item yields an operation iff its id is valid, the check as written accepts its `slr_per` and it has a field; a written percentage lies in [0, 100]; the operation never writes the status |
| BoothUpdate.BulkBlankSlrStoresZero | src/controller/user.controller.ts:1173-1176 | a bulk item with a valid id and a blank `slr_per` yields an operation writing 0 to the percentage |
| BoothUpdate.BulkUpdate | src/controller/user.controller.ts:1136-1209 | a missing or empty list is rejected; the operations are the prepared operations of the items not skipped, one per such item and in item order, so never more than the items; no operation means no write |
| BoothUpdate.BulkAgreesWithSingle | src/controller/user.controller.ts:1146-1193 | an item whose name is absent or a string gives the same changes in bulk as in a single update |
| BoothUpdate.BulkStoresNullAsText | src/controller/user.controller.ts:1161 | a null name throws in a single update but is stored as the text `null` in bulk |
| BoothUpdate.BulkCountAsWritten | src/controller/user.controller.ts:1201 | as written: `increment` keeps a null counter null |
| BoothUpdate.BulkLeavesNullCount | src/controller/user.controller.ts:1196-1216 | for a row with a NULL counter that some applicable operation names, the transaction as written commits and leaves the counter NULL, and the corrected one commits with a counter |
| BoothUpdate.ApplyChanges | src/controller/user.controller.ts:1111-1116 | the changed fields are written, kept fields and the counter untouched |
| BoothUpdate.CommitSingle | src/controller/user.controller.ts:1102-1131 | a missing row is not found; otherwise only that row changes and its counter advances |
| BoothUpdate.CommitBulkAsWritten | src/controller/user.controller.ts:1196-1216 | the transaction as written: it commits iff every operation names an existing row, and otherwise writes nothing; the keys and untouched rows are unchanged; a counter is NULL afterwards iff it was NULL before, and a counter never shrinks |
| BoothUpdate.LastWrittenIsLast | src/controller/user.controller.ts:1196-1213 | a column no operation sets keeps its value; otherwise it holds the value of the last operation that sets it |
| BoothUpdate.CommitBulkAsWrittenColumns | src/controller/user.controller.ts:1196-1213 | as written, each of a committed row's name, mobile, percentage and status columns is what the operations naming that row write to it, in order |
| BoothUpdate.CommitBulkAsWrittenOneOp | src/controller/user.controller.ts:1196-1213 | as written, a row exactly one operation names becomes that operation's changes applied to it, with `increment` on its counter |
| BoothUpdate.CommitBulkAsWrittenCounts | src/controller/user.controller.ts:1196-1213 | as written, a non-NULL counter grows by the number of operations naming its row |
| BoothUpdate.CommitBulkAgreesWhenCounted | src/controller/user.controller.ts:1196-1216 | when no counter is NULL, the transaction as written and the corrected one give the same result |
| BoothUpdate.CommitBulk | src/controller/user.controller.ts:1209-1216 | corrected, so a NULL counter starts at 1: it commits iff every operation names an existing row, and otherwise writes nothing; untouched rows are unchanged; touched rows have a counter |
| BoothUpdate.CommitBulkColumns | src/controller/user.controller.ts:1196-1213 | corrected transaction: each column of a committed row is what the operations naming that row write to it, in order |
| BoothUpdate.CommitBulkCounts | src/controller/user.controller.ts:1196-1213 | corrected: a row's counter grows by the number of operations naming it |
| BlockReport.JsAdd | src/controller/user.controller.ts:151 | finite numbers add exactly; the sum is NaN iff an operand is NaN or the infinities are opposite |
| BlockReport.OrZero | src/controller/user.controller.ts:151 | `Number(v) \|\| 0` is never NaN: a missing value or NaN counts 0, any other number counts itself |
| BlockReport.CFields | src/controller/user.controller.ts:143 | the summed fields are exactly the first block's fields that start with `c` |
| BlockReport.ColumnSumFinite | src/controller/user.controller.ts:149-153 | with every term finite, a column's total is the real sum of its terms |
| BlockReport.ColumnSumNaN | src/controller/user.controller.ts:149-153 | a NaN total needs both a +Infinity and a -Infinity term |
| BlockReport.ColumnSumInf | src/controller/user.controller.ts:149-153 | an infinite total needs a term that is that same infinity |
| BlockReport.CombinedIsRPlusU | src/controller/user.controller.ts:149-153 | with finite terms, the total over R and U blocks is the R total plus the U total |
| BlockReport.CombinedBlockReport | src/controller/user.controller.ts:113-156 | missing name or district is rejected; a non-string name throws; no block is not found; else `R/U`, null id, trimmed name + ` R+U`, and each c-field the column total |
| BlockReport.ColumnKeysDistinct | src/controller/user.controller.ts:232 | `c1`…`c84` are pairwise different |
| BlockReport.Selected | src/controller/user.controller.ts:185-192 | `ALL` keeps every block; `R` or `U` keeps exactly the blocks of that type |
| BlockReport.DistrictCombinedReport | src/controller/user.controller.ts:171-245 | a bad type is rejected; a missing district is not found; else 84 entries `c1`…`c84`, each the column total with null as 0, and `blockCount` the selected blocks |
| BlockReport.DistrictKeys | src/controller/user.controller.ts:232-238 | no two entries of a district report share a key |
| BlockReport.NoBlocksAllZero | src/controller/user.controller.ts:233-238 | a district with no selected block reports 0 in every column |
| BlockReport.ColumnTotalSplit | src/controller/user.controller.ts:237 | a column total splits over any predicate and its negation |
| BlockReport.AllIsRPlusU | src/controller/user.controller.ts:171-245 | when every block is R or U, each `ALL` column equals the `R` column plus the `U` column, and so does `blockCount` |
| MapCsv.CsvIsJoin | src/controller/user.controller.ts:300 | a non-empty body is the header and the entry lines joined by line feeds |
| MapCsv.LineFields | src/controller/user.controller.ts:300 | a line of texts without a comma splits back into the name and value |
| MapCsv.CommaAddsColumn | src/controller/user.controller.ts:382 | no quoting: a comma in a name gives its line more than two fields |
| MapCsv.CsvLines | src/controller/user.controller.ts:463 | split at line feeds, a body gives the header then one line per entry, in entry order |
| MapCsv.CsvRoundTrip | src/controller/user.controller.ts:623 | reading a body back as lines of fields gives every entry's name and value text in order |
| MapCsv.EmptyCsvTrailingLine | src/controller/user.controller.ts:695 | an empty list yields the header, a line feed and nothing else |
| MapCsv.UpdateMap | src/controller/user.controller.ts:262-300 | missing `data` answers "data not found", empty data is 404, otherwise the body is built from the entries |
| MapCsv.CreateDistrictMaps | src/controller/user.controller.ts:509-552 | missing settings fail; a missing or empty list is rejected; items without a truthy name or a numeric value are counted and rejected; else the body |

## Left out

- Database and SQL execution: every query result is an input sequence. `ORDER BY`, collation, and the `ANY_VALUE`/`MIN` choice of a name are not specifiable, so row order is taken as given and a group's name is its first row's.
- The cache client: `src/redis/cache.service.ts` is commented out and the client behind `redisCacheService` is not part of this model. The cache is a map from keys to a value and an expiry time, with the current time passed in.
- HTTP responses, status codes and the 500 catch paths: each result is a datatype naming the branch.
- The chart-service upload and publish calls, Cloudinary, file upload, and the database writes of the map updates (`parseInt(d.value, 10)`, `createMany`).
- Authentication middleware, routers, `src/index.ts`, the debug and dummy-data scripts, the compiled `dist/` copies and the commented-out handlers.
- `getHierarchyData`: it filters on columns `cludata` does not have, so its behaviour depends on ORM errors.
- `getAllAssemblyData`, `getSmData`, `getCluData`, `getVdData` and the other single-query read handlers: they only pass a query result through.
- `update_date`: it is a clock value written with every update.
- IEEE double rounding and UTF-16: numbers are exact reals and strings are sequences of characters.
- A `null` or `undefined` element of `updates`: the `updates.map` callback destructures it (`src/controller/user.controller.ts:1142-1143`) outside any `try`, so it throws past the handler's error path. The model's items are always objects. A number or string element has no `boothId` and is skipped, as an item without `boothId` is in the model.
- A truthy `data` that is not an array in the map update handlers: `data.map` fails inside the `try` and the 500 catch answers. `MapCsv.UpdateMap` takes `data` as an array or absent. A non-array `updates` or `mapsData` is answered 400 and is modelled as an absent list.
- JSON request bodies that are not objects: they are not representable.
- The combined block report's database filter (name containment, type R or U, district): the matching blocks are an input.
- A query array given for `type` in the district report: it is treated as a bad type.
- BoothUpdate.SingleUpdate: an exception from `.trim()` on a non-string name is the result `NameThrows`; what the web framework answers then is not modelled.
- BlockReport.DistrictCombinedReport: the column values are integers or null; a non-numeric column value is not modelled.
- BoothUpdate.SingleUpdate: a JSON array or object as a field value is not modelled, because `JsValue` holds only null, booleans, numbers and strings. The code converts such values: `slr_per: [50]` stores 50, `bla2_mobile_no: ["98","76"]` stores "9876", and an array `bla2_name` makes `.trim()` throw.
- BoothUpdate.PrepareOp: a JSON array or object as a field value is not modelled, for the same reason. The code passes it through `String()` and `Number()`, so an array name `["a","b"]` is stored as "a,b".
- BlockReport.CombinedBlockReport: a JSON array or object as `blockName` or `districtId` is not modelled. Both are truthy, and an array `blockName` makes `.trim()` throw (`src/controller/user.controller.ts:119`).
- BoothUpdate.SingleUpdateIdempotent: assumes that the printed text of a numeric `slr_per` reads back, under `Number()`, as its value. Every number parsed from JSON has that property.

## Findings

| source | as written | input that shows it | evidently intended | confidence | as-written member | corrected member |
|---|---|---|---|---|---|---|
| src/controller/hierarchy.controller.ts:1646 | a sakha's name is looked up by MAN_ID and SAK_ID only | two Vidhan Sabhas both with mandal 1 and sakha 1, named Alpha and Beta: the second is labelled Alpha | the lookup also matches VID_ID, as the mandal lookup on line 1641 does | high, not executed | Hierarchy.SakhaNameAsWritten | Hierarchy.SakhaName |
| src/controller/user.controller.ts:1071-1083 | the range check on `Number(slr_per)` runs before the blank check | `slr_per: ""` stores 0 instead of clearing | an empty value clears the percentage, as the error message says | high, not executed | BoothUpdate.SlrAsWritten | BoothUpdate.Slr |
| src/controller/user.controller.ts:1201 | the bulk update always writes `update_count: { increment: 1 }` | a booth whose `update_count` is NULL keeps NULL after a bulk update | a NULL counter becomes 1, as in the single update on lines 1114-1116 | medium, not executed | BoothUpdate.CommitBulkAsWritten | BoothUpdate.CommitBulk |
