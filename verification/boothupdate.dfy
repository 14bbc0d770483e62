/** The booth-update endpoints: the single update takes the booth id from
    the URL and a JSON body of optional fields; the bulk update takes a
    list of such bodies, each carrying its own id. Both normalise the
    fields the same way before writing the booth row. */
module BoothUpdate {
  import opened Seqs
  import opened JsText

  /** A body field: None is a field the body leaves out (`undefined`). */
  type Field = Option<JsValue>

  /** The fields of one update body (`bla2_name`, `bla2_mobile_no`,
      `slr_per`, `isBla2`). */
  datatype Payload = Payload(name: Field, mobile: Field, slr: Field, status: Field)

  /** What an update does to one column: `Keep` leaves it alone, `Set(v)`
      writes `v`, where None is SQL NULL. */
  datatype Write<T> = Keep | Set(v: Option<T>)

  datatype Changes = Changes(name: Write<string>, mobile: Write<string>, slr: Write<real>, status: Write<string>)

  predicate AnyChange(c: Changes)
  {
    c.name.Set? || c.mobile.Set? || c.slr.Set? || c.status.Set?
  }

  /** The statuses `isBla2` accepts. */
  const Statuses: seq<string> := ["VALUE_0", "VALUE_1", "VALUE_2"]

  /** An empty text clears the column. */
  function BlankToNull(s: string): (r: Option<string>)
    ensures r == None <==> s == []
    ensures r.Some? ==> r.value == s
  {
    if s == [] then None else Some(s)
  }

  /** The stored name: the text trimmed, NULL when nothing is left. */
  function NameValue(s: string): (r: Option<string>)
    ensures r == None <==> AllSpace(s)
    ensures r.Some? ==> r.value != [] && !IsJsSpace(r.value[0]) && !IsJsSpace(r.value[|r.value| - 1])
  {
    BlankToNull(Trim(s))
  }

  /** The stored mobile number: the digits of `String(v)`, NULL when it
      has none. */
  function MobileValue(v: JsValue): (r: Option<string>)
    ensures r.Some? ==> r.value != [] && AllDigits(r.value)
    ensures r == None <==> forall c :: c in ToStr(v) ==> !IsDigit(c)
  {
    var d := DigitsOnly(ToStr(v));
    assert d != [] ==> d[0] in d;
    BlankToNull(d)
  }

  // ---------------------------------------------------------------------
  // The SLR percentage

  /** `slr_per` as the handlers check it: a value whose `Number` lies in
      0..100 is stored; otherwise a blank text clears the column and
      anything else is rejected (None). The blank test comes second, so
      it never fires: `Number` of a blank text is already 0. */
  function SlrAsWritten(v: JsValue): (r: Option<Option<real>>)
    ensures r.Some? && r.value.Some? ==> 0.0 <= r.value.value <= 100.0 && ToNumber(v) == Finite(r.value.value)
    ensures r.Some? && r.value.Some? <==> ToNumber(v).Finite? && 0.0 <= ToNumber(v).v <= 100.0
  {
    var n := ToNumber(v);
    if n.Finite? && 0.0 <= n.v <= 100.0 then Some(Some(n.v))
    else if Trim(ToStr(v)) == [] then Some(None)
    else None
  }

  /** The clearing branch is dead: no well-formed value reaches it. */
  lemma SlrClearUnreachable(v: JsValue)
    requires WellFormed(v)
    ensures SlrAsWritten(v) != Some(None)
  {
    if Trim(ToStr(v)) == [] {
      BlankIsZero(ToStr(v));
    }
  }

  /** An empty or blank `slr_per`, which the error message offers as the
      way to clear the column, stores 0 instead. */
  lemma SlrBlankStoresZero(s: string)
    requires AllSpace(s)
    ensures SlrAsWritten(Str(s)) == Some(Some(0.0))
  {
    BlankIsZero(s);
    assert ToNumber(Str(s)) == Finite(0.0);
  }

  /** `slr_per` with the blank test first, so that an empty value clears
      the column as the handlers' error message promises. */
  function Slr(v: JsValue): (r: Option<Option<real>>)
    ensures r == Some(None) <==> AllSpace(ToStr(v))
    ensures r.Some? && r.value.Some? ==> 0.0 <= r.value.value <= 100.0 && ToNumber(v) == Finite(r.value.value)
    ensures r == None <==> !AllSpace(ToStr(v)) && !(ToNumber(v).Finite? && 0.0 <= ToNumber(v).v <= 100.0)
  {
    if Trim(ToStr(v)) == [] then Some(None)
    else
      var n := ToNumber(v);
      if n.Finite? && 0.0 <= n.v <= 100.0 then Some(Some(n.v)) else None
  }

  /** The two checks reject the same values. */
  lemma SlrRejectsAlike(v: JsValue)
    ensures SlrAsWritten(v).None? <==> Slr(v).None?
  {
  }

  /** The correction changes nothing but blank values. */
  lemma SlrAgreesOffBlank(v: JsValue)
    requires !AllSpace(ToStr(v))
    ensures Slr(v) == SlrAsWritten(v)
  {
  }

  // ---------------------------------------------------------------------
  // The single update

  function Status(v: JsValue): (r: Option<Write<string>>)
    ensures r.Some? ==> r.value.Set?
    ensures r == Some(Set(None)) <==> v == Str("")
    ensures r.Some? && r.value.v.Some? ==> v == Str(r.value.v.value) && r.value.v.value in Statuses
    ensures r == None <==> !(v.Str? && (v.s in Statuses || v.s == ""))
  {
    if v.Str? && v.s in Statuses then Some(Set(Some(v.s)))
    else if v == Str("") then Some(Set(None))
    else None
  }

  /** The answer of the single update before the database is touched. */
  datatype Single =
    | BadId            // 400 'Invalid booth ID provided.'
    | NameThrows       // `.trim()` on a name that is not a string throws
    | BadSlr           // 400, the percentage is out of range
    | BadStatus        // 400, the status is not one of `Statuses`
    | NothingToUpdate  // 400, the body holds none of the four fields
    | Update(id: JsNumber, changes: Changes)

  function WriteOf<T>(f: Field, g: JsValue -> Option<T>): Write<T>
  {
    if f.None? then Keep else Set(g(f.value))
  }

  function NameOf(v: JsValue): Option<string>
  {
    if v.Str? then NameValue(v.s) else None
  }

  function SlrOf(v: JsValue): Option<real>
  {
    var s := SlrAsWritten(v);
    if s.Some? then s.value else None
  }

  function StatusOf(v: JsValue): Option<string>
  {
    var s := Status(v);
    if s.Some? then s.value.v else None
  }

  predicate ValidUrlId(boothId: string)
  {
    boothId != [] && !StringToNumber(boothId).NaN?
  }

  /** The single update: the id is checked, then the fields in the order
      name, mobile, percentage, status; the first failure answers. */
  function SingleUpdate(boothId: string, p: Payload): (r: Single)
    ensures r == BadId <==> !ValidUrlId(boothId)
    ensures r == NameThrows <==> ValidUrlId(boothId) && p.name.Some? && !p.name.value.Str?
    ensures r == NothingToUpdate <==> ValidUrlId(boothId) && p == Payload(None, None, None, None)
    ensures r == BadSlr <==> ValidUrlId(boothId) && (p.name.None? || p.name.value.Str?)
                             && p.slr.Some? && SlrAsWritten(p.slr.value).None?
    ensures r == BadStatus ==> p.status.Some? && Status(p.status.value).None?
    ensures r.Update? ==> r.id == StringToNumber(boothId) && AnyChange(r.changes)
    ensures r.Update? ==> ValidPayload(p) && r.changes == SingleChanges(p)
  {
    if !ValidUrlId(boothId) then BadId
    else if p.name.Some? && !p.name.value.Str? then NameThrows
    else if p.slr.Some? && SlrAsWritten(p.slr.value).None? then BadSlr
    else if p.status.Some? && Status(p.status.value).None? then BadStatus
    else
      var c := SingleChanges(p);
      SingleChangesFields(p);
      assert ValidPayload(p);
      if !AnyChange(c) then NothingToUpdate else Update(StringToNumber(boothId), c)
  }

  /** A body every present field of which passes its check. */
  predicate ValidPayload(p: Payload)
  {
    && (p.name.None? || p.name.value.Str?)
    && (p.slr.None? || SlrAsWritten(p.slr.value).Some?)
    && (p.status.None? || Status(p.status.value).Some?)
  }

  /** Each column is written exactly when its field is present, with the
      field's normalised value. */
  lemma SingleChangesFields(p: Payload)
    requires ValidPayload(p)
    ensures var c := SingleChanges(p);
      && (c.name.Set? <==> p.name.Some?)
      && (c.mobile.Set? <==> p.mobile.Some?)
      && (c.slr.Set? <==> p.slr.Some?)
      && (c.status.Set? <==> p.status.Some?)
      && (c.name.Set? ==> c.name.v == NameValue(p.name.value.s))
      && (c.mobile.Set? ==> c.mobile.v == MobileValue(p.mobile.value))
      && (c.slr.Set? ==> SlrAsWritten(p.slr.value) == Some(c.slr.v))
      && (c.status.Set? ==> Status(p.status.value) == Some(c.status))
  {
  }

  /** The columns a body writes once its fields have passed the checks. */
  function SingleChanges(p: Payload): Changes
  {
    Changes(WriteOf(p.name, NameOf), WriteOf(p.mobile, MobileValue), WriteOf(p.slr, SlrOf), WriteOf(p.status, StatusOf))
  }

  /** The body that sends the stored values back: each set column as a
      string (an empty one for NULL), the percentage as a JSON number. */
  ghost predicate Echoes(p: Payload, c: Changes)
  {
    EchoesText(p.name, c.name) && EchoesText(p.mobile, c.mobile)
    && EchoesText(p.status, c.status) && EchoesSlr(p.slr, c.slr)
  }

  ghost predicate EchoesText(f: Field, w: Write<string>)
  {
    && (w.Keep? ==> f.None?)
    && (w == Set(None) ==> f == Some(Str("")))
    && (w.Set? && w.v.Some? ==> f == Some(Str(w.v.value)))
  }

  ghost predicate EchoesSlr(f: Field, w: Write<real>)
  {
    && (w.Keep? ==> f.None?)
    && (w == Set(None) ==> f == Some(Str("")))
    && (w.Set? && w.v.Some? ==>
          f.Some? && f.value.Num? && f.value.x == w.v.value && WellFormed(f.value))
  }

  /** Sending back what an update stored writes the same values again:
      the normalisations are idempotent. */
  lemma SingleUpdateIdempotent(boothId: string, p: Payload, p2: Payload)
    requires p.slr.Some? ==> WellFormed(p.slr.value)
    requires SingleUpdate(boothId, p).Update?
    requires Echoes(p2, SingleUpdate(boothId, p).changes)
    ensures SingleUpdate(boothId, p2) == SingleUpdate(boothId, p)
  {
    var c := SingleUpdate(boothId, p).changes;
    SingleChangesNormalised(p);
    EchoChanges(p2, c);
    SingleChangesOf(boothId, p2);
  }

  /** The values the normalisations produce: a trimmed non-empty name, a
      non-empty string of digits, a percentage in range (never NULL: the
      clearing branch is dead), a known status. */
  predicate Normalised(c: Changes)
  {
    && (c.name.Set? && c.name.v.Some? ==> var n := c.name.v.value;
          n != [] && !IsJsSpace(n[0]) && !IsJsSpace(n[|n| - 1]))
    && (c.mobile.Set? && c.mobile.v.Some? ==> c.mobile.v.value != [] && AllDigits(c.mobile.v.value))
    && (c.slr.Set? ==> c.slr.v.Some? && 0.0 <= c.slr.v.value <= 100.0)
    && (c.status.Set? && c.status.v.Some? ==> c.status.v.value in Statuses)
  }

  lemma SingleChangesNormalised(p: Payload)
    requires ValidPayload(p)
    requires p.slr.Some? ==> WellFormed(p.slr.value)
    ensures Normalised(SingleChanges(p))
  {
    SingleChangesFields(p);
    if p.slr.Some? {
      SlrClearUnreachable(p.slr.value);
    }
  }

  /** A body that echoes normalised values passes the checks and writes
      those values again. */
  lemma EchoChanges(p: Payload, c: Changes)
    requires Echoes(p, c) && Normalised(c)
    ensures ValidPayload(p) && SingleChanges(p) == c
  {
    EchoName(p.name, c.name);
    EchoMobile(p.mobile, c.mobile);
    EchoSlr(p.slr, c.slr);
    EchoStatus(p.status, c.status);
  }

  lemma EchoName(f: Field, w: Write<string>)
    requires EchoesText(f, w)
    requires w.Set? && w.v.Some? ==> w.v.value != [] && !IsJsSpace(w.v.value[0]) && !IsJsSpace(w.v.value[|w.v.value| - 1])
    ensures f.Some? ==> f.value.Str?
    ensures WriteOf(f, NameOf) == w
  {
    if w.Set? && w.v.Some? {
      TrimNumeral(w.v.value);
    }
  }

  lemma EchoMobile(f: Field, w: Write<string>)
    requires EchoesText(f, w)
    requires w.Set? && w.v.Some? ==> w.v.value != [] && AllDigits(w.v.value)
    ensures WriteOf(f, MobileValue) == w
  {
    if w.Set? && w.v.Some? {
      DigitsKept(w.v.value);
    }
  }

  lemma EchoStatus(f: Field, w: Write<string>)
    requires EchoesText(f, w)
    requires w.Set? && w.v.Some? ==> w.v.value in Statuses
    ensures f.Some? ==> Status(f.value).Some?
    ensures WriteOf(f, StatusOf) == w
  {
    if w == Set(None) {
      assert Status(Str("")) == Some(Set(None));
    } else if w.Set? {
      assert Status(Str(w.v.value)) == Some(w);
    }
  }

  lemma EchoSlr(f: Field, w: Write<real>)
    requires EchoesSlr(f, w)
    requires w.Set? ==> w.v.Some? && 0.0 <= w.v.value <= 100.0
    ensures f.Some? ==> SlrAsWritten(f.value).Some?
    ensures WriteOf(f, SlrOf) == w
  {
    if w.Set? {
      var v := f.value;
      SlrOfNumber(v);
      assert SlrOf(v) == w.v;
      WriteOfSet(f, SlrOf);
    }
  }

  lemma WriteOfSet<T>(f: Field, g: JsValue -> Option<T>)
    requires f.Some?
    ensures WriteOf(f, g) == Set(g(f.value))
  {
  }

  lemma SlrOfNumber(v: JsValue)
    requires v.Num? && WellFormed(v) && 0.0 <= v.x <= 100.0
    ensures SlrAsWritten(v) == Some(Some(v.x))
  {
    assert ToNumber(v) == Finite(v.x);
  }

  lemma DigitsKept(s: string)
    requires AllDigits(s)
    ensures DigitsOnly(s) == s
  {
    FilterAll(s, IsDigit);
  }

  // ---------------------------------------------------------------------
  // The bulk update

  /** One element of `updates`: its id and its fields. */
  datatype Item = Item(boothId: Field, fields: Payload)

  datatype Op = Op(id: JsNumber, changes: Changes)

  predicate ValidItemId(f: Field)
  {
    f.Some? && Truthy(f.value) && !ToNumber(f.value).NaN?
  }

  function TextOf(v: JsValue): Option<string>
  {
    NameValue(ToStr(v))
  }

  /** The operation one element yields, or None when it is skipped: a bad
      id, a bad percentage or no field at all. The name goes through
      `String`, so it never throws, and the status is not read. */
  function PrepareOp(it: Item): (r: Option<Op>)
    ensures r.Some? ==> ValidItemId(it.boothId) && r.value.id == ToNumber(it.boothId.value)
    ensures r.Some? ==> r.value.changes.status.Keep? && AnyChange(r.value.changes)
    ensures r.Some? && r.value.changes.slr.Set? && r.value.changes.slr.v.Some? ==> 0.0 <= r.value.changes.slr.v.value <= 100.0
    ensures r.None? <==>
      || !ValidItemId(it.boothId)
      || (it.fields.slr.Some? && SlrAsWritten(it.fields.slr.value).None?)
      || (it.fields.name.None? && it.fields.mobile.None? && it.fields.slr.None?)
  {
    var p := it.fields;
    if !ValidItemId(it.boothId) then None
    else if p.slr.Some? && SlrAsWritten(p.slr.value).None? then None
    else
      var c := BulkChanges(p);
      if !AnyChange(c) then None else Some(Op(ToNumber(it.boothId.value), c))
  }

  datatype Bulk =
    | BadBody            // 400, `updates` is not a non-empty array
    | NoChanges          // 200, every element was skipped
    | Transaction(ops: seq<Op>)

  /** The bulk update: the operations of the elements not skipped, in
      order; None is a body whose `updates` is not an array. */
  function BulkUpdate(updates: Option<seq<Item>>): (r: Bulk)
    ensures r == BadBody <==> updates.None? || updates.value == []
    ensures r.Transaction? ==> r.ops != [] && |r.ops| <= |updates.value|
    ensures r.Transaction? ==> forall op :: op in r.ops <==> Some(op) in Map(updates.value, PrepareOp)
    ensures r.Transaction? ==> r.ops == Somes(Map(updates.value, PrepareOp))
    ensures r == NoChanges <==> updates.Some? && updates.value != [] && forall it :: it in updates.value ==> PrepareOp(it).None?
  {
    if updates.None? || updates.value == [] then BadBody
    else
      var ops := Somes(Map(updates.value, PrepareOp));
      if ops == [] then
        assert forall it :: it in updates.value ==> PrepareOp(it).None? by {
          forall it | it in updates.value ensures PrepareOp(it).None? {
            var i :| 0 <= i < |updates.value| && updates.value[i] == it;
            assert Map(updates.value, PrepareOp)[i] == PrepareOp(it);
          }
        }
        NoChanges
      else
        assert exists it :: it in updates.value && PrepareOp(it).Some? by {
          var op := ops[0];
          var i :| 0 <= i < |updates.value| && Map(updates.value, PrepareOp)[i] == Some(op);
          assert PrepareOp(updates.value[i]).Some?;
        }
        Transaction(ops)
  }

  /** A blank `slr_per` in a single update writes 0 to the column. */
  lemma SingleBlankSlrStoresZero(s: string, p: Payload, t: string)
    requires ValidUrlId(s)
    requires p.name.None? || p.name.value.Str?
    requires p.slr == Some(Str(t)) && AllSpace(t)
    requires p.status.None? || Status(p.status.value).Some?
    ensures SingleUpdate(s, p).Update? && SingleUpdate(s, p).changes.slr == Set(Some(0.0))
  {
    SlrBlankStoresZero(t);
    SingleChangesFields(p);
    SingleChangesOf(s, p);
  }

  /** The same in a bulk element. */
  lemma BulkBlankSlrStoresZero(it: Item, t: string)
    requires ValidItemId(it.boothId)
    requires it.fields.slr == Some(Str(t)) && AllSpace(t)
    ensures PrepareOp(it).Some? && PrepareOp(it).value.changes.slr == Set(Some(0.0))
  {
    SlrBlankStoresZero(t);
    PreparedChanges(it);
  }

  /** The bulk and the single update agree on an element whose id is a
      string, whose name is absent or a string and which has no status. */
  lemma BulkAgreesWithSingle(s: string, it: Item)
    requires it.boothId == Some(Str(s))
    requires it.fields.status.None?
    requires it.fields.name.None? || it.fields.name.value.Str?
    ensures PrepareOp(it).Some? <==> SingleUpdate(s, it.fields).Update?
    ensures SingleUpdate(s, it.fields).Update? ==>
      PrepareOp(it) == Some(Op(SingleUpdate(s, it.fields).id, SingleUpdate(s, it.fields).changes))
  {
    var p := it.fields;
    UrlIdAsItemId(s);
    if !ValidUrlId(s) {
      BothRejectId(s, it);
    } else if p.slr.Some? && SlrAsWritten(p.slr.value).None? {
      BothRejectSlr(s, it);
    } else {
      PreparedChanges(it);
      SingleChangesOf(s, p);
      SameChanges(p);
    }
  }

  /** A string id passes the bulk check iff it passes the single one, and
      names the same number. */
  lemma UrlIdAsItemId(s: string)
    ensures ValidItemId(Some(Str(s))) == ValidUrlId(s)
    ensures ToNumber(Str(s)) == StringToNumber(s)
  {
  }

  lemma BothRejectId(s: string, it: Item)
    requires it.boothId == Some(Str(s)) && !ValidUrlId(s)
    ensures PrepareOp(it).None? && SingleUpdate(s, it.fields) == BadId
  {
    UrlIdAsItemId(s);
  }

  lemma BothRejectSlr(s: string, it: Item)
    requires it.fields.name.None? || it.fields.name.value.Str?
    requires it.fields.slr.Some? && SlrAsWritten(it.fields.slr.value).None?
    ensures PrepareOp(it).None?
    ensures ValidUrlId(s) ==> SingleUpdate(s, it.fields) == BadSlr
  {
  }

  lemma SameChanges(p: Payload)
    requires p.status.None?
    requires p.name.None? || p.name.value.Str?
    ensures BulkChanges(p) == SingleChanges(p)
  {
    SameName(p.name);
  }

  /** The columns the bulk update writes for one element. */
  function BulkChanges(p: Payload): Changes
  {
    Changes(WriteOf(p.name, TextOf), WriteOf(p.mobile, MobileValue), WriteOf(p.slr, SlrOf), Keep)
  }

  lemma PreparedChanges(it: Item)
    requires ValidItemId(it.boothId)
    requires it.fields.slr.None? || SlrAsWritten(it.fields.slr.value).Some?
    ensures var c := BulkChanges(it.fields);
      PrepareOp(it) == if AnyChange(c) then Some(Op(ToNumber(it.boothId.value), c)) else None
  {
  }

  lemma SingleChangesOf(s: string, p: Payload)
    requires ValidUrlId(s) && ValidPayload(p)
    ensures var c := SingleChanges(p);
      SingleUpdate(s, p) == if AnyChange(c) then Update(StringToNumber(s), c) else NothingToUpdate
  {
  }

  lemma SameName(f: Field)
    requires f.None? || f.value.Str?
    ensures WriteOf(f, TextOf) == WriteOf(f, NameOf)
  {
  }

  /** Where the two differ: a JSON null name makes the single update throw
      but is stored by the bulk update as the text "null". */
  lemma BulkStoresNullAsText(s: string, it: Item)
    requires ValidUrlId(s) && ValidItemId(it.boothId)
    requires it.fields.name == Some(Null) && it.fields.slr.None?
    ensures SingleUpdate(s, it.fields) == NameThrows
    ensures PrepareOp(it).Some? && PrepareOp(it).value.changes.name == Set(Some("null"))
  {
    BulkName(it);
    NullText(it.fields.name.value);
  }

  lemma BulkName(it: Item)
    requires ValidItemId(it.boothId)
    requires it.fields.name.Some? && it.fields.slr.None?
    ensures PrepareOp(it).Some? && PrepareOp(it).value.changes.name == Set(TextOf(it.fields.name.value))
  {
  }

  lemma NullText(v: JsValue)
    requires v == Null
    ensures TextOf(v) == Some("null")
  {
    TrimNumeral(ToStr(v));
  }

  // ---------------------------------------------------------------------
  // Writing the row

  /** The columns the endpoints write, with the update counter. */
  datatype Booth = Booth(name: Option<string>, mobile: Option<string>, slr: Option<real>,
                         status: Option<string>, count: Option<int>)

  type Table = map<int, Booth>

  function Written<T>(w: Write<T>, prev: Option<T>): Option<T>
  {
    if w.Set? then w.v else prev
  }

  /** The row after the changes: set columns take the new value, the
      others keep theirs; the counter is handled by the caller. */
  function ApplyChanges(b: Booth, c: Changes, count: Option<int>): (r: Booth)
    ensures r.count == count
    ensures c.name.Keep? ==> r.name == b.name
    ensures c.mobile.Keep? ==> r.mobile == b.mobile
    ensures c.slr.Keep? ==> r.slr == b.slr
    ensures c.status.Keep? ==> r.status == b.status
    ensures c.name.Set? ==> r.name == c.name.v
    ensures c.mobile.Set? ==> r.mobile == c.mobile.v
    ensures c.slr.Set? ==> r.slr == c.slr.v
    ensures c.status.Set? ==> r.status == c.status.v
  {
    Booth(Written(c.name, b.name), Written(c.mobile, b.mobile), Written(c.slr, b.slr), Written(c.status, b.status), count)
  }

  /** The counter the single update writes: 1 on a NULL counter, one more
      otherwise. */
  function NextCount(count: Option<int>): (r: int)
    ensures count.None? ==> r == 1
    ensures count.Some? ==> r == count.value + 1
  {
    if count.None? then 1 else count.value + 1
  }

  /** `{ increment: 1 }` as the bulk update writes it: SQL adds to NULL
      and gets NULL, so a NULL counter stays NULL. */
  function BulkCountAsWritten(count: Option<int>): (r: Option<int>)
    ensures r.Some? <==> count.Some?
    ensures r.Some? ==> r.value == count.value + 1
  {
    if count.None? then None else Some(count.value + 1)
  }

  /** The row key a numeric id names, when it is an integer. */
  function RowKey(id: JsNumber): (r: Option<int>)
    ensures r.Some? ==> id == Finite(r.value as real)
  {
    if id.Finite? && id.v == id.v.Floor as real then Some(id.v.Floor) else None
  }

  datatype Commit = Committed(table: Table) | NotFound | Failed

  /** The single update's write: a missing row is a 404, an id that is
      not an integer fails the query. */
  function CommitSingle(t: Table, id: JsNumber, c: Changes): (r: Commit)
    ensures r == NotFound <==> RowKey(id).Some? && RowKey(id).value !in t
    ensures r == Failed <==> RowKey(id).None?
    ensures r.Committed? ==> r.table.Keys == t.Keys
    ensures r.Committed? ==> forall k :: k in t && Some(k) != RowKey(id) ==> r.table[k] == t[k]
    ensures r.Committed? ==> var k := RowKey(id).value;
      r.table[k] == ApplyChanges(t[k], c, Some(NextCount(t[k].count)))
  {
    var k := RowKey(id);
    if k.None? then Failed
    else if k.value !in t then NotFound
    else Committed(t[k.value := ApplyChanges(t[k.value], c, Some(NextCount(t[k.value].count)))])
  }

  predicate Applicable(t: Table, op: Op)
  {
    RowKey(op.id).Some? && RowKey(op.id).value in t
  }

  /** The bulk update's transaction as written: the operations apply in
      order, each adding 1 to the counter (`increment`, so a NULL counter
      stays NULL), and when any of them names no row nothing is written. */
  function CommitBulkAsWritten(t: Table, ops: seq<Op>): (r: Commit)
    ensures r.Committed? <==> forall op :: op in ops ==> Applicable(t, op)
    ensures r.Committed? ==> r.table.Keys == t.Keys
    ensures r.Committed? ==> forall k :: k in t && (forall op :: op in ops ==> RowKey(op.id) != Some(k)) ==> r.table[k] == t[k]
    ensures r.Committed? ==> forall k :: k in t ==> (r.table[k].count.Some? <==> t[k].count.Some?)
    ensures r.Committed? ==> forall k :: k in t && t[k].count.Some? ==> r.table[k].count.value >= t[k].count.value
    ensures !r.Committed? ==> r == Failed
    decreases |ops|
  {
    if ops == [] then Committed(t)
    else
      var op := ops[0];
      if !Applicable(t, op) then Failed
      else
        var t1 := ApplyOpAsWritten(t, op);
        var r := CommitBulkAsWritten(t1, ops[1..]);
        CommitAsWrittenStep(t, op, ops[1..], r);
        assert [op] + ops[1..] == ops;
        r
  }

  /** The row after one operation as written. */
  function ApplyOpAsWritten(t: Table, op: Op): Table
    requires Applicable(t, op)
  {
    var k := RowKey(op.id).value;
    t[k := ApplyChanges(t[k], op.changes, BulkCountAsWritten(t[k].count))]
  }

  /** What the transaction as written promises about the table it commits. */
  predicate CommitAsWrittenKeeps(t: Table, ops: seq<Op>, r: Commit)
  {
    && (r.Committed? <==> forall op :: op in ops ==> Applicable(t, op))
    && (r.Committed? ==> r.table.Keys == t.Keys)
    && (r.Committed? ==> forall k :: k in t && (forall op :: op in ops ==> RowKey(op.id) != Some(k)) ==> r.table[k] == t[k])
    && (r.Committed? ==> forall k :: k in t ==> (r.table[k].count.Some? <==> t[k].count.Some?))
    && (r.Committed? ==> forall k :: k in t && t[k].count.Some? ==> r.table[k].count.value >= t[k].count.value)
  }

  lemma CommitAsWrittenStep(t: Table, op: Op, rest: seq<Op>, r: Commit)
    requires Applicable(t, op)
    requires CommitAsWrittenKeeps(ApplyOpAsWritten(t, op), rest, r)
    ensures CommitAsWrittenKeeps(t, [op] + rest, r)
  {
    var t1 := ApplyOpAsWritten(t, op);
    var ops := [op] + rest;
    assert forall o :: o in ops <==> o == op || o in rest;
    assert t1.Keys == t.Keys;
    assert forall o :: Applicable(t1, o) == Applicable(t, o);
  }

  /** The two transactions differ only on NULL counters: when every row is
      counted, they write the same table. */
  lemma {:induction false} CommitBulkAgreesWhenCounted(t: Table, ops: seq<Op>)
    requires forall k :: k in t ==> t[k].count.Some?
    ensures CommitBulkAsWritten(t, ops) == CommitBulk(t, ops)
    decreases |ops|
  {
    if ops != [] && Applicable(t, ops[0]) {
      var op := ops[0];
      var k := RowKey(op.id).value;
      assert BulkCountAsWritten(t[k].count) == Some(NextCount(t[k].count));
      assert ApplyOpAsWritten(t, op) == ApplyOp(t, op);
      CommitBulkAgreesWhenCounted(ApplyOp(t, op), ops[1..]);
    }
  }

  /** A booth never counted before stays uncounted after a bulk update as
      written, although an operation names it; the corrected transaction
      counts it. */
  lemma BulkLeavesNullCount(t: Table, ops: seq<Op>, k: int)
    requires k in t && t[k].count.None?
    requires forall op :: op in ops ==> Applicable(t, op)
    requires exists op :: op in ops && RowKey(op.id) == Some(k)
    ensures CommitBulkAsWritten(t, ops).Committed? && CommitBulkAsWritten(t, ops).table[k].count.None?
    ensures CommitBulk(t, ops).Committed? && CommitBulk(t, ops).table[k].count.Some?
  {
  }

  /** The bulk update's transaction, corrected to start a NULL counter at 1
      as the single update does: the operations apply in order, and when
      any of them names no row nothing is written. */
  function CommitBulk(t: Table, ops: seq<Op>): (r: Commit)
    ensures r.Committed? <==> forall op :: op in ops ==> Applicable(t, op)
    ensures r.Committed? ==> r.table.Keys == t.Keys
    ensures r.Committed? ==> forall k :: k in t && (forall op :: op in ops ==> RowKey(op.id) != Some(k)) ==> r.table[k] == t[k]
    ensures r.Committed? ==> forall k :: k in t && t[k].count.Some? ==> r.table[k].count.Some? && r.table[k].count.value >= t[k].count.value
    ensures r.Committed? ==> forall k :: k in t && (exists op :: op in ops && RowKey(op.id) == Some(k)) ==> r.table[k].count.Some?
    ensures !r.Committed? ==> r == Failed
    decreases |ops|
  {
    if ops == [] then Committed(t)
    else
      var op := ops[0];
      if !Applicable(t, op) then Failed
      else
        var t1 := ApplyOp(t, op);
        var r := CommitBulk(t1, ops[1..]);
        CommitBulkStep(t, op, ops[1..], r);
        assert [op] + ops[1..] == ops;
        r
  }

  /** The row after one operation of the transaction. */
  function ApplyOp(t: Table, op: Op): Table
    requires Applicable(t, op)
  {
    var k := RowKey(op.id).value;
    t[k := ApplyChanges(t[k], op.changes, Some(NextCount(t[k].count)))]
  }

  /** What a transaction promises about the table it commits. */
  predicate CommitKeeps(t: Table, ops: seq<Op>, r: Commit)
  {
    && (r.Committed? <==> forall op :: op in ops ==> Applicable(t, op))
    && (r.Committed? ==> r.table.Keys == t.Keys)
    && (r.Committed? ==> forall k :: k in t && (forall op :: op in ops ==> RowKey(op.id) != Some(k)) ==> r.table[k] == t[k])
    && (r.Committed? ==> forall k :: k in t && t[k].count.Some? ==> r.table[k].count.Some? && r.table[k].count.value >= t[k].count.value)
    && (r.Committed? ==> forall k :: k in t && (exists op :: op in ops && RowKey(op.id) == Some(k)) ==> r.table[k].count.Some?)
  }

  /** The promise carries over from the rest of the transaction to the
      whole once its first operation has applied. */
  lemma CommitBulkStep(t: Table, op: Op, rest: seq<Op>, r: Commit)
    requires Applicable(t, op)
    requires CommitKeeps(ApplyOp(t, op), rest, r)
    ensures CommitKeeps(t, [op] + rest, r)
  {
    var t1 := ApplyOp(t, op);
    var ops := [op] + rest;
    assert forall o :: o in ops <==> o == op || o in rest;
    assert t1.Keys == t.Keys;
    assert forall o :: Applicable(t1, o) == Applicable(t, o);
  }

  /** Every operation of a committed transaction counts once on its row:
      with the counters all set, a row's counter grows by the number of
      operations naming it. */
  lemma {:induction false} CommitBulkCounts(t: Table, ops: seq<Op>, k: int)
    requires k in t && t[k].count.Some?
    requires CommitBulk(t, ops).Committed?
    ensures CommitBulk(t, ops).table[k].count == Some(t[k].count.value + |Filter(ops, NamesRow(k))|)
    decreases |ops|
  {
    if ops != [] {
      var op := ops[0];
      var j := RowKey(op.id).value;
      var t1 := t[j := ApplyChanges(t[j], op.changes, Some(NextCount(t[j].count)))];
      CommitBulkCounts(t1, ops[1..], k);
      FilterCons(ops, NamesRow(k));
    }
  }

  /** As written, a counted row's counter also grows by the number of
      operations naming it. */
  lemma {:induction false} CommitBulkAsWrittenCounts(t: Table, ops: seq<Op>, k: int)
    requires k in t && t[k].count.Some?
    requires CommitBulkAsWritten(t, ops).Committed?
    ensures CommitBulkAsWritten(t, ops).table[k].count == Some(t[k].count.value + |Filter(ops, NamesRow(k))|)
    decreases |ops|
  {
    if ops != [] {
      var op := ops[0];
      CommitBulkAsWrittenCounts(ApplyOpAsWritten(t, op), ops[1..], k);
      FilterCons(ops, NamesRow(k));
    }
  }

  function NamesRow(k: int): Op -> bool
  {
    (op: Op) => RowKey(op.id) == Some(k)
  }

  // ---------------------------------------------------------------------
  // The columns a transaction leaves

  /** A column after a run of writes to it, in order: a set replaces the
      value, a keep leaves it. */
  function LastWritten<T>(ws: seq<Write<T>>, prev: Option<T>): Option<T>
    decreases |ws|
  {
    if ws == [] then prev else LastWritten(ws[1..], Written(ws[0], prev))
  }

  /** Last write wins: a column no write sets keeps its value, and
      otherwise it holds the value of the last write that sets it. */
  lemma {:induction false} LastWrittenIsLast<T>(ws: seq<Write<T>>, prev: Option<T>)
    ensures (forall i :: 0 <= i < |ws| ==> ws[i].Keep?) ==> LastWritten(ws, prev) == prev
    ensures forall i :: 0 <= i < |ws| && ws[i].Set? && (forall j :: i < j < |ws| ==> ws[j].Keep?) ==>
              LastWritten(ws, prev) == ws[i].v
    decreases |ws|
  {
    if ws != [] {
      var tail := ws[1..];
      LastWrittenIsLast(tail, Written(ws[0], prev));
      forall i | 0 <= i < |ws| && ws[i].Set? && (forall j :: i < j < |ws| ==> ws[j].Keep?)
        ensures LastWritten(ws, prev) == ws[i].v
      {
        forall j | i - 1 < j < |tail| ensures tail[j].Keep? {
          assert tail[j] == ws[j + 1];
        }
        if i > 0 {
          assert tail[i - 1] == ws[i];
        }
      }
    }
  }

  /** One more write in front: it acts on the column first. */
  lemma ColumnStep<T>(op: Op, rest: seq<Op>, f: Op -> Write<T>, prev: Option<T>)
    ensures LastWritten(Map([op] + rest, f), prev) == LastWritten(Map(rest, f), Written(f(op), prev))
  {
    var ws := Map([op] + rest, f);
    assert ws == [f(op)] + Map(rest, f);
    assert ws[1..] == Map(rest, f);
  }

  function NameWrite(op: Op): Write<string> { op.changes.name }
  function MobileWrite(op: Op): Write<string> { op.changes.mobile }
  function SlrWrite(op: Op): Write<real> { op.changes.slr }
  function StatusWrite(op: Op): Write<string> { op.changes.status }

  /** The row an operation writes, the columns and the operation agree. */
  lemma ColumnsStep(op: Op, rest: seq<Op>, b: Booth, b1: Booth)
    requires b1.name == Written(op.changes.name, b.name) && b1.mobile == Written(op.changes.mobile, b.mobile)
    requires b1.slr == Written(op.changes.slr, b.slr) && b1.status == Written(op.changes.status, b.status)
    ensures LastWritten(Map([op] + rest, NameWrite), b.name) == LastWritten(Map(rest, NameWrite), b1.name)
    ensures LastWritten(Map([op] + rest, MobileWrite), b.mobile) == LastWritten(Map(rest, MobileWrite), b1.mobile)
    ensures LastWritten(Map([op] + rest, SlrWrite), b.slr) == LastWritten(Map(rest, SlrWrite), b1.slr)
    ensures LastWritten(Map([op] + rest, StatusWrite), b.status) == LastWritten(Map(rest, StatusWrite), b1.status)
  {
    ColumnStep(op, rest, NameWrite, b.name);
    ColumnStep(op, rest, MobileWrite, b.mobile);
    ColumnStep(op, rest, SlrWrite, b.slr);
    ColumnStep(op, rest, StatusWrite, b.status);
  }

  /** Every column of a row the corrected transaction commits is what the
      operations naming that row write to it, in order: with
      `LastWrittenIsLast`, the last write that sets it wins. */
  lemma {:induction false} CommitBulkColumns(t: Table, ops: seq<Op>, k: int)
    requires k in t
    requires CommitBulk(t, ops).Committed?
    ensures var b := CommitBulk(t, ops).table[k]; var mine := Filter(ops, NamesRow(k));
      && b.name == LastWritten(Map(mine, NameWrite), t[k].name)
      && b.mobile == LastWritten(Map(mine, MobileWrite), t[k].mobile)
      && b.slr == LastWritten(Map(mine, SlrWrite), t[k].slr)
      && b.status == LastWritten(Map(mine, StatusWrite), t[k].status)
    decreases |ops|
  {
    if ops != [] {
      var op := ops[0];
      var t1 := ApplyOp(t, op);
      assert CommitBulk(t, ops) == CommitBulk(t1, ops[1..]);
      CommitBulkColumns(t1, ops[1..], k);
      FilterCons(ops, NamesRow(k));
      var rest := Filter(ops[1..], NamesRow(k));
      if RowKey(op.id) == Some(k) {
        assert Filter(ops, NamesRow(k)) == [op] + rest;
        ColumnsStep(op, rest, t[k], t1[k]);
      } else {
        assert Filter(ops, NamesRow(k)) == rest;
        assert t1[k] == t[k];
      }
    }
  }

  /** The same for the transaction as written: the counter aside, it
      writes the columns as the corrected one does. */
  lemma {:induction false} CommitBulkAsWrittenColumns(t: Table, ops: seq<Op>, k: int)
    requires k in t
    requires CommitBulkAsWritten(t, ops).Committed?
    ensures var b := CommitBulkAsWritten(t, ops).table[k]; var mine := Filter(ops, NamesRow(k));
      && b.name == LastWritten(Map(mine, NameWrite), t[k].name)
      && b.mobile == LastWritten(Map(mine, MobileWrite), t[k].mobile)
      && b.slr == LastWritten(Map(mine, SlrWrite), t[k].slr)
      && b.status == LastWritten(Map(mine, StatusWrite), t[k].status)
    decreases |ops|
  {
    if ops != [] {
      var op := ops[0];
      var t1 := ApplyOpAsWritten(t, op);
      assert CommitBulkAsWritten(t, ops) == CommitBulkAsWritten(t1, ops[1..]);
      CommitBulkAsWrittenColumns(t1, ops[1..], k);
      FilterCons(ops, NamesRow(k));
      var rest := Filter(ops[1..], NamesRow(k));
      if RowKey(op.id) == Some(k) {
        assert Filter(ops, NamesRow(k)) == [op] + rest;
        ColumnsStep(op, rest, t[k], t1[k]);
      } else {
        assert Filter(ops, NamesRow(k)) == rest;
        assert t1[k] == t[k];
      }
    }
  }

  /** A row exactly one operation names ends, as written, as that
      operation's changes applied to it, with `increment` on its counter. */
  lemma CommitBulkAsWrittenOneOp(t: Table, ops: seq<Op>, k: int, op: Op)
    requires k in t
    requires CommitBulkAsWritten(t, ops).Committed?
    requires Filter(ops, NamesRow(k)) == [op]
    ensures CommitBulkAsWritten(t, ops).table[k] == ApplyChanges(t[k], op.changes, BulkCountAsWritten(t[k].count))
  {
    CommitBulkAsWrittenColumns(t, ops, k);
    ColumnsStep(op, [], t[k], ApplyChanges(t[k], op.changes, BulkCountAsWritten(t[k].count)));
    assert [op] + [] == [op];
    if t[k].count.Some? {
      CommitBulkAsWrittenCounts(t, ops, k);
    }
  }
}
