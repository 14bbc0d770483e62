/** The CSV bodies the map endpoints upload to the chart service: a header
    line, then one `name,value` line per entry in entry order, joined with
    line feeds and with no quoting. Also the request checks in front of
    them. The upload itself and the database writes are not modelled. */
module MapCsv {
  import opened Seqs
  import opened JsText

  /** The three maps, each with its own header. */
  datatype MapKind = DistrictMap | AssemblyMap | LokSabhaMap

  function Header(k: MapKind): string
  {
    match k
    case DistrictMap => "District,Value"
    case AssemblyMap => "Assembly_name,Assembly_value"
    case LokSabhaMap => "LokSabha_name,LokSabha_value"
  }

  /** One entry: its name and value fields, None when the object lacks
      the field. */
  datatype Entry = Entry(name: Option<JsValue>, value: Option<JsValue>)

  /** A field inside a template literal: a missing one prints as
      "undefined". */
  function FieldText(f: Option<JsValue>): string
  {
    if f.Some? then ToStr(f.value) else "undefined"
  }

  function Line(e: Entry): string
  {
    FieldText(e.name) + "," + FieldText(e.value)
  }

  /** The uploaded body for the entries, in entry order. */
  function Csv(k: MapKind, entries: seq<Entry>): string
  {
    Header(k) + "\n" + Join(Map(entries, Line), '\n')
  }

  /** With entries, the body is the header and the lines joined alike. */
  lemma CsvIsJoin(k: MapKind, entries: seq<Entry>)
    requires entries != []
    ensures Csv(k, entries) == Join([Header(k)] + Map(entries, Line), '\n')
  {
    JoinCons(Header(k), Map(entries, Line), '\n');
  }

  /** Joining a head and a non-empty tail puts one separator between. */
  lemma {:induction false} JoinCons(h: string, rest: seq<string>, sep: char)
    requires rest != []
    ensures Join([h] + rest, sep) == h + [sep] + Join(rest, sep)
    decreases |rest|
  {
    if |rest| == 1 {
      assert ([h] + rest)[..1] == [h];
    } else {
      var init := rest[..|rest| - 1];
      JoinCons(h, init, sep);
      assert ([h] + rest)[..|[h] + rest| - 1] == [h] + init;
    }
  }

  /** A text the format carries through: no line feed and no comma. */
  predicate Plain(s: string) { '\n' !in s && ',' !in s }

  predicate PlainEntry(e: Entry) { Plain(FieldText(e.name)) && Plain(FieldText(e.value)) }

  lemma HeaderPlain(k: MapKind)
    ensures '\n' !in Header(k)
  {
  }

  /** Reading a line back: split at the comma, the name and the value
      texts come out again when neither holds a comma. */
  lemma LineFields(e: Entry)
    requires Plain(FieldText(e.name)) && Plain(FieldText(e.value))
    ensures Split(Line(e), ',') == [FieldText(e.name), FieldText(e.value)]
    ensures '\n' !in Line(e)
  {
    SplitAtSep(FieldText(e.name), FieldText(e.value), ',');
    SplitNoSep(FieldText(e.name), ',');
    SplitNoSep(FieldText(e.value), ',');
  }

  /** Without quoting, a comma in a name adds a column to its line. */
  lemma CommaAddsColumn(e: Entry)
    requires ',' in FieldText(e.name)
    ensures |Split(Line(e), ',')| > 2
  {
    var n := FieldText(e.name);
    var i :| 0 <= i < |n| && n[i] == ',';
    assert Line(e) == n[..i] + [','] + (n[i + 1..] + "," + FieldText(e.value));
    SplitAtSep(n[..i], n[i + 1..] + "," + FieldText(e.value), ',');
    assert n[i + 1..] + "," + FieldText(e.value) == n[i + 1..] + [','] + FieldText(e.value);
    SplitAtSep(n[i + 1..], FieldText(e.value), ',');
  }

  /** The lines of a body: the header, then one line per entry, in entry
      order, when no text holds a line feed. */
  lemma CsvLines(k: MapKind, entries: seq<Entry>)
    requires entries != []
    requires forall e :: e in entries ==> '\n' !in FieldText(e.name) && '\n' !in FieldText(e.value)
    ensures Split(Csv(k, entries), '\n') == [Header(k)] + Map(entries, Line)
  {
    var parts := [Header(k)] + Map(entries, Line);
    HeaderPlain(k);
    forall i | 0 <= i < |parts| ensures '\n' !in parts[i] {
      if i > 0 {
        assert parts[i] == Line(entries[i - 1]);
        assert entries[i - 1] in entries;
      }
    }
    CsvIsJoin(k, entries);
    SplitJoin(parts, '\n');
  }

  /** The body read back as lines of comma-separated fields gives the
      entries' texts in order: the format round-trips plain entries. */
  lemma CsvRoundTrip(k: MapKind, entries: seq<Entry>, i: nat)
    requires entries != []
    requires forall e :: e in entries ==> PlainEntry(e)
    requires 0 < i <= |entries|
    ensures |Split(Csv(k, entries), '\n')| == |entries| + 1
    ensures Split(Split(Csv(k, entries), '\n')[i], ',') == [FieldText(entries[i - 1].name), FieldText(entries[i - 1].value)]
  {
    CsvLines(k, entries);
    assert entries[i - 1] in entries;
    LineFields(entries[i - 1]);
  }

  /** An empty list still ends the header with a line feed, so the body
      has one empty line after it. */
  lemma EmptyCsvTrailingLine(k: MapKind)
    ensures Split(Csv(k, []), '\n') == [Header(k), ""]
  {
    HeaderPlain(k);
    assert Csv(k, []) == Header(k) + ['\n'] + "";
    SplitAtSep(Header(k), "", '\n');
    SplitNoSep(Header(k), '\n');
  }

  // ---------------------------------------------------------------------
  // The request checks

  /** The three update endpoints: a missing `data` answers 200 with
      "data not found", an empty one 404, and otherwise the body is built
      (None is a request without `data`). */
  datatype UpdateResult = NoData | EmptyData | UpdateBody(csv: string)

  function UpdateMap(k: MapKind, data: Option<seq<Entry>>): (r: UpdateResult)
    ensures r == NoData <==> data.None?
    ensures r == EmptyData <==> data == Some([])
    ensures r.UpdateBody? ==> data.Some? && data.value != [] && r.csv == Csv(k, data.value)
  {
    if data.None? then NoData
    else if |data.value| <= 0 then EmptyData
    else UpdateBody(Csv(k, data.value))
  }

  /** The district map creation: the chart settings must be present, the
      list non-empty, and every item needs a truthy `District` and a
      numeric `Value`. */
  datatype CreateResult =
    | MissingSettings          // thrown, answered 500
    | NotAList                 // 400 'mapsData must be a non-empty array'
    | InvalidItems(count: nat) // 400, with the number of bad items
    | CreateBody(csv: string)

  predicate ValidItem(e: Entry)
  {
    e.name.Some? && Truthy(e.name.value) && e.value.Some? && e.value.value.Num?
  }

  predicate InvalidItem(e: Entry) { !ValidItem(e) }

  function CreateDistrictMaps(settings: bool, mapsData: Option<seq<Entry>>): (r: CreateResult)
    ensures r == MissingSettings <==> !settings
    ensures r == NotAList <==> settings && (mapsData.None? || mapsData.value == [])
    ensures r.InvalidItems? ==> r.count > 0 && r.count == |Filter(mapsData.value, InvalidItem)|
    ensures r.InvalidItems? <==> settings && mapsData.Some? && exists e :: e in mapsData.value && !ValidItem(e)
    ensures r.CreateBody? ==> forall e :: e in mapsData.value ==> ValidItem(e)
    ensures r.CreateBody? ==> r.csv == Csv(DistrictMap, mapsData.value)
  {
    if !settings then MissingSettings
    else if mapsData.None? || mapsData.value == [] then NotAList
    else
      var bad := Filter(mapsData.value, InvalidItem);
      if |bad| > 0 then
        assert bad[0] in bad;
        InvalidItems(|bad|)
      else
        assert forall e :: e in mapsData.value ==> ValidItem(e) by {
          forall e | e in mapsData.value ensures ValidItem(e) {
            assert e in bad <==> !ValidItem(e);
          }
        }
        CreateBody(Csv(DistrictMap, mapsData.value))
  }
}
