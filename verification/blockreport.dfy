/** The two summed block reports: the combined rural and urban report for
    one block name, and the per-district report over the columns c1..c84.
    The queries are inputs; what the handlers add is the validation and
    the column-wise summation. */
module BlockReport {
  import opened Seqs
  import opened JsText

  // ---------------------------------------------------------------------
  // Number arithmetic

  /** `a + b` on JavaScript numbers, over exact reals: NaN absorbs, and
      opposite infinities give NaN. */
  function JsAdd(a: JsNumber, b: JsNumber): (r: JsNumber)
    ensures a.Finite? && b.Finite? ==> r == Finite(a.v + b.v)
    ensures r.NaN? <==> a.NaN? || b.NaN? || (a.PosInf? && b.NegInf?) || (a.NegInf? && b.PosInf?)
  {
    if a.NaN? || b.NaN? then NaN
    else if a.PosInf? then (if b.NegInf? then NaN else PosInf)
    else if a.NegInf? then (if b.PosInf? then NaN else NegInf)
    else if b.Finite? then Finite(a.v + b.v)
    else b
  }

  function RealSum(s: seq<real>): real
    decreases |s|
  {
    if s == [] then 0.0 else RealSum(s[..|s| - 1]) + s[|s| - 1]
  }

  lemma {:induction false} RealSumAppend(a: seq<real>, b: seq<real>)
    ensures RealSum(a + b) == RealSum(a) + RealSum(b)
    decreases |b|
  {
    if b == [] {
      assert a + b == a;
    } else {
      var init := b[..|b| - 1];
      RealSumAppend(a, init);
      assert (a + b)[..|a + b| - 1] == a + init;
    }
  }

  // ---------------------------------------------------------------------
  // The combined R+U block report

  /** A block row as the query selects it: its columns, in select order.
      A row object has distinct column names; the type does not demand it,
      and on a repeated name `Cell` reads the first column of that name
      and `CFields` lists the name once per column. */
  datatype Block = Block(cols: seq<(string, JsValue)>)

  function ColName(c: (string, JsValue)): string { c.0 }

  function Names(b: Block): seq<string> { Map(b.cols, ColName) }

  /** `block[field]`: the value of the column of that name, undefined
      (None) when the row has no such column. */
  function Cell(cols: seq<(string, JsValue)>, field: string): (r: Option<JsValue>)
    ensures r.Some? ==> (field, r.value) in cols
    ensures r.None? <==> forall c :: c in cols ==> c.0 != field
  {
    if cols == [] then None
    else if cols[0].0 == field then Some(cols[0].1)
    else Cell(cols[1..], field)
  }

  predicate StartsWithC(k: string) { k != [] && k[0] == 'c' }

  /** The summed fields: the names of the first block's columns that
      start with `c`, in column order. */
  function CFields(b: Block): (r: seq<string>)
    ensures forall k :: k in r <==> k in Names(b) && StartsWithC(k)
  {
    Filter(Names(b), StartsWithC)
  }

  /** `Number(v) || 0`: a value that is missing or not a number counts 0. */
  function OrZero(o: Option<JsValue>): (r: JsNumber)
    ensures !r.NaN?
    ensures o.Some? && !ToNumber(o.value).NaN? ==> r == ToNumber(o.value)
    ensures o.None? || ToNumber(o.value).NaN? ==> r == Finite(0.0)
  {
    if o.None? then Finite(0.0)
    else
      var n := ToNumber(o.value);
      if n.NaN? then Finite(0.0) else n
  }

  function Term(field: string): Block -> JsNumber
  {
    (b: Block) => OrZero(Cell(b.cols, field))
  }

  function FiniteTerm(field: string): Block -> real
  {
    (b: Block) => var n := OrZero(Cell(b.cols, field)); if n.Finite? then n.v else 0.0
  }

  predicate AllFinite(blocks: seq<Block>, field: string)
  {
    forall b :: b in blocks ==> Term(field)(b).Finite?
  }

  /** One summed field: the blocks' terms added left to right from 0. */
  function ColumnSum(blocks: seq<Block>, field: string): JsNumber
    decreases |blocks|
  {
    if blocks == [] then Finite(0.0)
    else JsAdd(ColumnSum(blocks[..|blocks| - 1], field), Term(field)(blocks[|blocks| - 1]))
  }

  /** While every term is finite the sum is the real sum of the terms. */
  lemma {:induction false} ColumnSumFinite(blocks: seq<Block>, field: string)
    requires AllFinite(blocks, field)
    ensures ColumnSum(blocks, field) == Finite(RealSum(Map(blocks, FiniteTerm(field))))
    decreases |blocks|
  {
    if blocks != [] {
      var init := blocks[..|blocks| - 1];
      var last := blocks[|blocks| - 1];
      InitIn(blocks);
      ColumnSumFinite(init, field);
      assert last in blocks;
      MapLast(blocks, FiniteTerm(field));
      ColumnSumFiniteStep(blocks, field);
    }
  }

  /** One step of `ColumnSumFinite`: adding a finite last term. */
  lemma ColumnSumFiniteStep(blocks: seq<Block>, field: string)
    requires blocks != [] && Term(field)(blocks[|blocks| - 1]).Finite?
    requires ColumnSum(blocks[..|blocks| - 1], field) == Finite(RealSum(Map(blocks[..|blocks| - 1], FiniteTerm(field))))
    requires Map(blocks, FiniteTerm(field)) == Map(blocks[..|blocks| - 1], FiniteTerm(field)) + [FiniteTerm(field)(blocks[|blocks| - 1])]
    ensures ColumnSum(blocks, field) == Finite(RealSum(Map(blocks, FiniteTerm(field))))
  {
    var init := blocks[..|blocks| - 1];
    var last := blocks[|blocks| - 1];
    assert ColumnSum(blocks, field) == JsAdd(ColumnSum(init, field), Term(field)(last));
    assert Term(field)(last) == Finite(FiniteTerm(field)(last));
    AddFiniteTerm(ColumnSum(init, field), Map(init, FiniteTerm(field)), FiniteTerm(field)(last));
  }

  lemma AddFiniteTerm(acc: JsNumber, xs: seq<real>, x: real)
    requires acc == Finite(RealSum(xs))
    ensures JsAdd(acc, Finite(x)) == Finite(RealSum(xs + [x]))
  {
    assert (xs + [x])[..|xs|] == xs;
  }

  /** The sum is NaN only when both infinities occur among the terms;
      a value that is not a number never makes it NaN. */
  lemma {:induction false} ColumnSumNaN(blocks: seq<Block>, field: string)
    requires ColumnSum(blocks, field).NaN?
    ensures exists b :: b in blocks && Term(field)(b).PosInf?
    ensures exists b :: b in blocks && Term(field)(b).NegInf?
    decreases |blocks|
  {
    var init := blocks[..|blocks| - 1];
    var last := blocks[|blocks| - 1];
    var acc := ColumnSum(init, field);
    assert last in blocks;
    if acc.NaN? {
      ColumnSumNaN(init, field);
      InitIn(blocks);
    } else if acc.PosInf? {
      assert Term(field)(last).NegInf?;
      ColumnSumInf(init, field, true);
      InitIn(blocks);
    } else {
      assert acc.NegInf? && Term(field)(last).PosInf?;
      ColumnSumInf(init, field, false);
      InitIn(blocks);
    }
  }

  /** An infinite sum has a term of that sign. */
  lemma {:induction false} ColumnSumInf(blocks: seq<Block>, field: string, pos: bool)
    requires ColumnSum(blocks, field) == (if pos then PosInf else NegInf)
    ensures exists b :: b in blocks && Term(field)(b) == (if pos then PosInf else NegInf)
    decreases |blocks|
  {
    var init := blocks[..|blocks| - 1];
    var last := blocks[|blocks| - 1];
    assert last in blocks;
    if Term(field)(last) != (if pos then PosInf else NegInf) {
      ColumnSumInf(init, field, pos);
      InitIn(blocks);
    }
  }

  /** The sum over rural blocks followed by urban ones is the rural sum
      plus the urban sum: the combined report is their column-wise sum. */
  lemma CombinedIsRPlusU(rs: seq<Block>, us: seq<Block>, field: string)
    requires AllFinite(rs, field) && AllFinite(us, field)
    ensures ColumnSum(rs + us, field) == JsAdd(ColumnSum(rs, field), ColumnSum(us, field))
  {
    var f := FiniteTerm(field);
    AllFiniteAppend(rs, us, field);
    ColumnSumFinite(rs, field);
    ColumnSumFinite(us, field);
    ColumnSumFinite(rs + us, field);
    MapAppend(rs, us, f);
    RealSumAppend(Map(rs, f), Map(us, f));
    AddFinites(RealSum(Map(rs, f)), RealSum(Map(us, f)));
  }

  lemma AllFiniteAppend(rs: seq<Block>, us: seq<Block>, field: string)
    requires AllFinite(rs, field) && AllFinite(us, field)
    ensures AllFinite(rs + us, field)
  {
    forall b | b in rs + us ensures Term(field)(b).Finite? {
      assert b in rs || b in us;
    }
  }

  lemma AddFinites(x: real, y: real)
    ensures JsAdd(Finite(x), Finite(y)) == Finite(x + y)
  {
  }

  datatype Combined = Combined(id: Option<int>, name: string, blockType: string, fields: seq<(string, JsNumber)>)

  datatype CombinedResult =
    | Missing            // 400 'blockName & districtId required'
    | NameThrows         // `.trim()` on a name that is not a string: 500
    | BlockNotFound      // 404
    | CombinedReport(report: Combined)

  predicate Given(f: Option<JsValue>) { f.Some? && Truthy(f.value) }

  function SumField(blocks: seq<Block>): string -> (string, JsNumber)
  {
    (k: string) => (k, ColumnSum(blocks, k))
  }

  function FieldName(f: (string, JsNumber)): string { f.0 }

  /** The combined report for the blocks the query found for the name and
      district. */
  function CombinedBlockReport(blockName: Option<JsValue>, districtId: Option<JsValue>, blocks: seq<Block>): (r: CombinedResult)
    ensures r == Missing <==> !Given(blockName) || !Given(districtId)
    ensures r == NameThrows <==> Given(blockName) && Given(districtId) && !blockName.value.Str?
    ensures r == BlockNotFound <==> Given(blockName) && Given(districtId) && blockName.value.Str? && blocks == []
    ensures r.CombinedReport? ==>
      && r.report.id.None? && r.report.blockType == "R/U"
      && r.report.name == Trim(blockName.value.s) + " R+U"
      && Map(r.report.fields, FieldName) == CFields(blocks[0])
      && forall i :: 0 <= i < |r.report.fields| ==>
           var (k, v) := r.report.fields[i];
           StartsWithC(k) && k in Names(blocks[0]) && v == ColumnSum(blocks, k)
  {
    if !Given(blockName) || !Given(districtId) then Missing
    else if !blockName.value.Str? then NameThrows
    else if blocks == [] then BlockNotFound
    else
      var fs := Map(CFields(blocks[0]), SumField(blocks));
      assert Map(fs, FieldName) == CFields(blocks[0]);
      CombinedReport(Combined(None, Trim(blockName.value.s) + " R+U", "R/U", fs))
  }

  // ---------------------------------------------------------------------
  // The district report

  /** A block of the district: its type and its columns c1..c84, where
      `cells[i]` is column `c(i+1)` and None is NULL. */
  datatype DBlock = DBlock(blockType: string, cells: seq<Option<int>>)

  datatype District = District(name: string, blocks: seq<DBlock>)

  const ColumnCount: nat := 84

  const Types: seq<string> := ["ALL", "R", "U"]

  /** The key of column `i`, counted from 0: "c1" .. "c84". */
  function ColumnKey(i: nat): string
  {
    "c" + NatToString(i + 1)
  }

  lemma ColumnKeysDistinct(i: nat, j: nat)
    requires ColumnKey(i) == ColumnKey(j)
    ensures i == j
  {
    assert NatToString(i + 1) == ColumnKey(i)[1..] == ColumnKey(j)[1..] == NatToString(j + 1);
    IntToStringInjective(i + 1, j + 1);
  }

  /** `block[field] ?? 0`. */
  function CellValue(b: DBlock, i: nat): int
  {
    if i < |b.cells| && b.cells[i].Some? then b.cells[i].value else 0
  }

  /** The `reduce` for column `i`: the blocks' values added from 0. */
  function ColumnTotal(blocks: seq<DBlock>, i: nat): int
    decreases |blocks|
  {
    if blocks == [] then 0 else ColumnTotal(blocks[..|blocks| - 1], i) + CellValue(blocks[|blocks| - 1], i)
  }

  function OfType(t: string): DBlock -> bool
  {
    (b: DBlock) => b.blockType == t
  }

  /** The mapped blocks the query keeps: all of them for "ALL", otherwise
      those of the requested type. */
  function Selected(t: string, blocks: seq<DBlock>): (r: seq<DBlock>)
    ensures t == "ALL" ==> r == blocks
    ensures t != "ALL" ==> forall b :: b in r <==> b in blocks && b.blockType == t
  {
    if t == "ALL" then blocks else Filter(blocks, OfType(t))
  }

  function ColumnEntry(blocks: seq<DBlock>, i: nat): (string, int)
  {
    (ColumnKey(i), ColumnTotal(blocks, i))
  }

  datatype DistrictResult =
    | BadType            // 400 'Invalid type. Must be one of: ALL, R, U'
    | DistrictNotFound   // 404
    | DistrictReport(name: string, reportType: string, blockCount: nat, data: seq<(string, int)>)

  /** The district report; `typ` None is a request without `type`, which
      defaults to "ALL", and `district` None is an id the query does not
      find. */
  function DistrictCombinedReport(typ: Option<string>, district: Option<District>): (r: DistrictResult)
    ensures r == BadType <==> typ.Some? && typ.value !in Types
    ensures r == DistrictNotFound <==> (typ.None? || typ.value in Types) && district.None?
    ensures r.DistrictReport? ==>
      var t := if typ.Some? then typ.value else "ALL";
      var sel := Selected(t, district.value.blocks);
      && r.name == district.value.name && r.reportType == t
      && r.blockCount == |sel|
      && |r.data| == ColumnCount
      && forall i :: 0 <= i < ColumnCount ==> r.data[i] == (ColumnKey(i), ColumnTotal(sel, i))
  {
    var t := if typ.Some? then typ.value else "ALL";
    if t !in Types then BadType
    else if district.None? then DistrictNotFound
    else
      var sel := Selected(t, district.value.blocks);
      DistrictReport(district.value.name, t, |sel|,
        seq(ColumnCount, (i: int) requires 0 <= i < ColumnCount => ColumnEntry(sel, i)))
  }

  /** The report's keys are c1..c84, each once. */
  lemma DistrictKeys(typ: Option<string>, district: Option<District>)
    requires DistrictCombinedReport(typ, district).DistrictReport?
    ensures var d := DistrictCombinedReport(typ, district).data;
      forall i, j :: 0 <= i < j < |d| ==> d[i].0 != d[j].0
  {
    var d := DistrictCombinedReport(typ, district).data;
    forall i, j | 0 <= i < j < |d| ensures d[i].0 != d[j].0 {
      if d[i].0 == d[j].0 {
        ColumnKeysDistinct(i, j);
      }
    }
  }

  /** A district with no block of the requested type reports zeros. */
  lemma NoBlocksAllZero(typ: Option<string>, d: District)
    requires DistrictCombinedReport(typ, Some(d)).DistrictReport?
    requires DistrictCombinedReport(typ, Some(d)).blockCount == 0
    ensures forall e :: e in DistrictCombinedReport(typ, Some(d)).data ==> e.1 == 0
  {
  }

  /** The complement of a block predicate. */
  function Not(p: DBlock -> bool): DBlock -> bool
  {
    b => !p(b)
  }

  /** Splitting the blocks by a predicate splits every column total. */
  lemma {:induction false} ColumnTotalSplit(blocks: seq<DBlock>, p: DBlock -> bool, i: nat)
    ensures ColumnTotal(blocks, i) == ColumnTotal(Filter(blocks, p), i) + ColumnTotal(Filter(blocks, Not(p)), i)
    ensures |blocks| == |Filter(blocks, p)| + |Filter(blocks, Not(p))|
    decreases |blocks|
  {
    if blocks != [] {
      ColumnTotalSplit(blocks[..|blocks| - 1], p, i);
      ColumnTotalSplitStep(blocks, p, Not(p), i);
    }
  }

  /** One step of `ColumnTotalSplit`: the last block lands on one side. */
  lemma ColumnTotalSplitStep(blocks: seq<DBlock>, p: DBlock -> bool, q: DBlock -> bool, i: nat)
    requires blocks != []
    requires q(blocks[|blocks| - 1]) == !p(blocks[|blocks| - 1])
    requires var init := blocks[..|blocks| - 1];
      ColumnTotal(init, i) == ColumnTotal(Filter(init, p), i) + ColumnTotal(Filter(init, q), i)
    requires var init := blocks[..|blocks| - 1];
      |init| == |Filter(init, p)| + |Filter(init, q)|
    ensures ColumnTotal(blocks, i) == ColumnTotal(Filter(blocks, p), i) + ColumnTotal(Filter(blocks, q), i)
    ensures |blocks| == |Filter(blocks, p)| + |Filter(blocks, q)|
  {
    var init := blocks[..|blocks| - 1];
    var last := blocks[|blocks| - 1];
    assert ColumnTotal(blocks, i) == ColumnTotal(init, i) + CellValue(last, i);
    if p(last) {
      assert Filter(blocks, p) == Filter(init, p) + [last];
      assert Filter(blocks, q) == Filter(init, q) + [];
      assert Filter(init, q) + [] == Filter(init, q);
      ColumnTotalSnoc(Filter(init, p), last, i);
    } else {
      assert Filter(blocks, q) == Filter(init, q) + [last];
      assert Filter(blocks, p) == Filter(init, p) + [];
      assert Filter(init, p) + [] == Filter(init, p);
      ColumnTotalSnoc(Filter(init, q), last, i);
    }
  }

  lemma ColumnTotalSnoc(blocks: seq<DBlock>, b: DBlock, i: nat)
    ensures ColumnTotal(blocks + [b], i) == ColumnTotal(blocks, i) + CellValue(b, i)
  {
    assert (blocks + [b])[..|blocks|] == blocks;
  }

  /** When every block is rural or urban, the "ALL" report is the "R"
      report plus the "U" report, column by column and in block count. */
  lemma AllIsRPlusU(d: District)
    requires forall b :: b in d.blocks ==> b.blockType == "R" || b.blockType == "U"
    ensures var all := DistrictCombinedReport(Some("ALL"), Some(d));
      var r := DistrictCombinedReport(Some("R"), Some(d));
      var u := DistrictCombinedReport(Some("U"), Some(d));
      && all.blockCount == r.blockCount + u.blockCount
      && forall i :: 0 <= i < ColumnCount ==> all.data[i].1 == r.data[i].1 + u.data[i].1
  {
    var bs := d.blocks;
    var rs := Filter(bs, OfType("R"));
    var us := Filter(bs, OfType("U"));
    var notR := Not(OfType("R"));
    assert Filter(bs, notR) == us by {
      FilterCongruent(bs, notR, OfType("U"));
    }
    forall i: nat | i < ColumnCount
      ensures ColumnTotal(bs, i) == ColumnTotal(rs, i) + ColumnTotal(us, i)
    {
      ColumnTotalSplit(bs, OfType("R"), i);
    }
    ColumnTotalSplit(bs, OfType("R"), 0);
  }
}
