/**
 * The delimited-text parser of the upload screen (`parseCSV` in
 * components/DataUpload.tsx): non-blank lines, a header line of trimmed,
 * lower-cased names, one row object per data line built cell by cell, and a
 * projection of that object onto the record kind being uploaded.
 */
module DataUpload {
  import opened Wrappers
  import opened JsStrings
  import opened Types

  datatype Kind = SALES | ITEM | PROMO

  /** What `obj[header]` holds: the trimmed cell text, or a number under a numeric header. */
  datatype CellValue = Text(text: string) | Number(n: int)

  /** The row object of one data line; a key mapped to None was assigned `undefined`. */
  type RowObject = map<string, Option<CellValue>>

  datatype Record = SaleRecord(sale: SalesData) | ItemRecord(item: ItemMaster) | PromoRecord(promo: Promotion)

  /** Headers whose cells are converted with `parseFloat(val) || 0`. */
  const NumericHeaders: seq<string> := ["quantity", "price", "unitcost", "discountpercent"]

  // ---------------------------------------------------------------- lines, headers, cells

  predicate NonBlank(line: string) {
    Trim(line) != ""
  }

  function KeepNonBlank(lines: seq<string>): seq<string>
    decreases |lines|
  {
    if |lines| == 0 then []
    else (if NonBlank(lines[0]) then [lines[0]] else []) + KeepNonBlank(lines[1..])
  }

  function NonBlankLines(text: string): seq<string> {
    KeepNonBlank(Split(text, '\n'))
  }

  function NormalizeHeader(h: string): string {
    ToLower(Trim(h))
  }

  function HeaderNames(line: string): seq<string> {
    var raw := Split(line, ',');
    seq(|raw|, i requires 0 <= i < |raw| => NormalizeHeader(raw[i]))
  }

  function CellsOf(line: string): seq<string> {
    var raw := Split(line, ',');
    seq(|raw|, i requires 0 <= i < |raw| => Trim(raw[i]))
  }

  // ---------------------------------------------------------------- the row object

  /** `parseFloat(val) || 0`: a missing cell, text that is not a number, and 0 all give 0. */
  function NumberOrZero(raw: Option<string>, parse: NumberParser): int {
    match raw
    case None => 0
    case Some(s) => parse(s).GetOr(0)
  }

  /** The value assigned to `obj[header]` for the cell at `index` (`values[index]` is undefined past the row's end). */
  function CellFor(header: string, values: seq<string>, index: nat, parse: NumberParser): Option<CellValue> {
    var raw := if index < |values| then Some(values[index]) else None;
    if header in NumericHeaders then Some(Number(NumberOrZero(raw, parse)))
    else match raw
      case None => None
      case Some(s) => Some(Text(s))
  }

  /** The object after the assignments for the first |headers| headers, in header order. */
  function RowObjectOf(headers: seq<string>, values: seq<string>, parse: NumberParser): RowObject
    decreases |headers|
  {
    if |headers| == 0 then map[]
    else
      var n := |headers| - 1;
      RowObjectOf(headers[..n], values, parse)[headers[n] := CellFor(headers[n], values, n, parse)]
  }

  /** The `headers.forEach` loop that fills the row object one assignment at a time. */
  method BuildRowObject(headers: seq<string>, values: seq<string>, parse: NumberParser) returns (obj: RowObject)
    ensures obj == RowObjectOf(headers, values, parse)
  {
    obj := map[];
    var index := 0;
    while index < |headers|
      invariant 0 <= index <= |headers|
      invariant obj == RowObjectOf(headers[..index], values, parse)
    {
      var header := headers[index];
      var val: Option<string> := if index < |values| then Some(values[index]) else None;
      var cell: Option<CellValue>;
      if header in NumericHeaders {
        cell := Some(Number(NumberOrZero(val, parse)));
      } else if val.Some? {
        cell := Some(Text(val.value));
      } else {
        cell := None;
      }
      obj := obj[header := cell];
      assert headers[..index + 1][..index] == headers[..index];
      index := index + 1;
    }
    assert headers[..|headers|] == headers;
  }

  /** The position of the last header equal to `key`. */
  function LastIndexOf(headers: seq<string>, key: string): (i: nat)
    requires key in headers
    ensures i < |headers| && headers[i] == key
    ensures forall j :: i < j < |headers| ==> headers[j] != key
    decreases |headers|
  {
    var n := |headers| - 1;
    if headers[n] == key then n
    else
      assert key in headers[..n] by {
        var k :| 0 <= k < |headers| && headers[k] == key;
        assert headers[..n][k] == key;
      }
      LastIndexOf(headers[..n], key)
  }

  /** `obj[key]`; reading a key that was never assigned gives undefined. */
  function Lookup(obj: RowObject, key: string): Option<CellValue> {
    if key in obj then obj[key] else None
  }

  /**
   * A key is in the row object exactly when some header is that key, and it holds the
   * value of the last such column: a later duplicate header overwrites an earlier one.
   */
  lemma {:induction false} RowObjectLookup(headers: seq<string>, values: seq<string>, parse: NumberParser, key: string)
    ensures key in RowObjectOf(headers, values, parse) <==> key in headers
    ensures Lookup(RowObjectOf(headers, values, parse), key)
         == if key in headers then CellFor(key, values, LastIndexOf(headers, key), parse) else None
    decreases |headers|
  {
    if |headers| > 0 {
      var n := |headers| - 1;
      var prefix := headers[..n];
      RowObjectLookup(prefix, values, parse, key);
      assert headers == prefix + [headers[n]];
      assert key in headers <==> key in prefix || key == headers[n];
    }
  }

  // ---------------------------------------------------------------- projection

  function TextField(obj: RowObject, key: string): Option<string> {
    match Lookup(obj, key)
    case Some(Text(s)) => Some(s)
    case _ => None
  }

  function NumberField(obj: RowObject, key: string): Option<int> {
    match Lookup(obj, key)
    case Some(Number(n)) => Some(n)
    case _ => None
  }

  /** `a || b` on two string-or-undefined values: the empty string is falsy too. */
  function OrElse(a: Option<string>, b: Option<string>): Option<string> {
    if a.Some? && a.value != "" then a else b
  }

  function Project(kind: Kind, obj: RowObject): Record {
    match kind
    case SALES =>
      SaleRecord(SalesData(TextField(obj, "date"), TextField(obj, "sku"),
                           NumberField(obj, "quantity"), NumberField(obj, "price")))
    case ITEM =>
      ItemRecord(ItemMaster(TextField(obj, "sku"), TextField(obj, "category"),
                            TextField(obj, "brand"), NumberField(obj, "unitcost")))
    case PROMO =>
      PromoRecord(Promotion(TextField(obj, "sku"),
                            OrElse(TextField(obj, "startdate"), TextField(obj, "date")),
                            OrElse(TextField(obj, "enddate"), TextField(obj, "date")),
                            NumberField(obj, "discountpercent")))
  }

  function ParseLine(kind: Kind, headers: seq<string>, line: string, parse: NumberParser): Record {
    Project(kind, RowObjectOf(headers, CellsOf(line), parse))
  }

  /** `parseCSV(text, type)`. */
  function ParseCsv(text: string, kind: Kind, parse: NumberParser): seq<Record> {
    var lines := NonBlankLines(text);
    if |lines| < 2 then []
    else
      var headers := HeaderNames(lines[0]);
      seq(|lines| - 1, i requires 0 <= i < |lines| - 1 => ParseLine(kind, headers, lines[i + 1], parse))
  }

  // ---------------------------------------------------------------- what a record holds

  /** The cell under the last column named `key`; None without such a column or past the row's end. */
  function ColumnText(headers: seq<string>, values: seq<string>, key: string): Option<string> {
    if key in headers && LastIndexOf(headers, key) < |values| then Some(values[LastIndexOf(headers, key)]) else None
  }

  /** A numeric column always yields a number when the header exists, and is undefined otherwise. */
  function ColumnNumber(headers: seq<string>, values: seq<string>, key: string, parse: NumberParser): Option<int> {
    if key in headers then Some(NumberOrZero(ColumnText(headers, values, key), parse)) else None
  }

  lemma TextColumn(headers: seq<string>, values: seq<string>, parse: NumberParser, key: string)
    requires key !in NumericHeaders
    ensures TextField(RowObjectOf(headers, values, parse), key) == ColumnText(headers, values, key)
  {
    RowObjectLookup(headers, values, parse, key);
  }

  lemma NumberColumn(headers: seq<string>, values: seq<string>, parse: NumberParser, key: string)
    requires key in NumericHeaders
    ensures NumberField(RowObjectOf(headers, values, parse), key) == ColumnNumber(headers, values, key, parse)
  {
    RowObjectLookup(headers, values, parse, key);
  }

  /** A sales record holds exactly the date, sku, quantity and price columns. */
  lemma SalesRecordFields(headers: seq<string>, values: seq<string>, parse: NumberParser)
    ensures Project(SALES, RowObjectOf(headers, values, parse))
         == SaleRecord(SalesData(ColumnText(headers, values, "date"), ColumnText(headers, values, "sku"),
                                 ColumnNumber(headers, values, "quantity", parse),
                                 ColumnNumber(headers, values, "price", parse)))
  {
    TextColumn(headers, values, parse, "date");
    TextColumn(headers, values, parse, "sku");
    NumberColumn(headers, values, parse, "quantity");
    NumberColumn(headers, values, parse, "price");
  }

  /** An item record holds the sku, category and brand columns, and unitCost from the `unitcost` column. */
  lemma ItemRecordFields(headers: seq<string>, values: seq<string>, parse: NumberParser)
    ensures Project(ITEM, RowObjectOf(headers, values, parse))
         == ItemRecord(ItemMaster(ColumnText(headers, values, "sku"), ColumnText(headers, values, "category"),
                                  ColumnText(headers, values, "brand"),
                                  ColumnNumber(headers, values, "unitcost", parse)))
  {
    TextColumn(headers, values, parse, "sku");
    TextColumn(headers, values, parse, "category");
    TextColumn(headers, values, parse, "brand");
    NumberColumn(headers, values, parse, "unitcost");
  }

  /**
   * A promotion's start and end dates fall back to the row's `date` column when their own
   * column is missing or empty; the end date never falls back to the start date.
   */
  lemma PromoRecordFields(headers: seq<string>, values: seq<string>, parse: NumberParser)
    ensures Project(PROMO, RowObjectOf(headers, values, parse))
         == PromoRecord(Promotion(ColumnText(headers, values, "sku"),
                                  OrElse(ColumnText(headers, values, "startdate"), ColumnText(headers, values, "date")),
                                  OrElse(ColumnText(headers, values, "enddate"), ColumnText(headers, values, "date")),
                                  ColumnNumber(headers, values, "discountpercent", parse)))
  {
    TextColumn(headers, values, parse, "sku");
    TextColumn(headers, values, parse, "startdate");
    TextColumn(headers, values, parse, "enddate");
    TextColumn(headers, values, parse, "date");
    NumberColumn(headers, values, parse, "discountpercent");
  }

  // ---------------------------------------------------------------- header matching

  predicate SameIgnoringCase(a: string, b: string) {
    |a| == |b| && forall i :: 0 <= i < |a| ==> LowerChar(a[i]) == LowerChar(b[i])
  }

  /** A header cell names a lower-case column exactly when its trimmed text equals it up to letter case. */
  lemma HeaderMatchIgnoresCase(h: string, key: string)
    requires ToLower(key) == key
    ensures NormalizeHeader(h) == key <==> SameIgnoringCase(Trim(h), key)
  {
    var t := Trim(h);
    forall i | 0 <= i < |key| ensures LowerChar(key[i]) == key[i] {
      assert ToLower(key)[i] == LowerChar(key[i]);
    }
    if SameIgnoringCase(t, key) {
      assert ToLower(t) == key;
    }
  }

  // ---------------------------------------------------------------- lines

  lemma {:induction false} KeepNonBlankMembers(lines: seq<string>)
    ensures forall l :: l in KeepNonBlank(lines) <==> l in lines && !IsBlank(l)
    decreases |lines|
  {
    if |lines| > 0 {
      KeepNonBlankMembers(lines[1..]);
      TrimEmptyIffBlank(lines[0]);
      assert lines == [lines[0]] + lines[1..];
    }
  }

  lemma {:induction false} KeepNonBlankAll(lines: seq<string>)
    requires forall l :: l in lines ==> NonBlank(l)
    ensures KeepNonBlank(lines) == lines
    decreases |lines|
  {
    if |lines| > 0 {
      assert lines[0] in lines;
      KeepNonBlankAll(lines[1..]);
      assert lines == [lines[0]] + lines[1..];
    }
  }

  lemma {:induction false} KeepNonBlankKeeps(lines: seq<string>)
    ensures forall l :: l in KeepNonBlank(lines) ==> l in lines && NonBlank(l)
    decreases |lines|
  {
    if |lines| > 0 {
      KeepNonBlankKeeps(lines[1..]);
    }
  }

  /** Text made of non-blank lines has exactly those lines as its non-blank lines. */
  lemma NonBlankLinesOfJoin(lines: seq<string>)
    requires forall l :: l in lines ==> NonBlank(l) && '\n' !in l
    ensures NonBlankLines(Join(lines, '\n')) == lines
  {
    if |lines| == 0 {
      assert Split("", '\n') == [""];
      assert !NonBlank("");
    } else {
      SplitJoin(lines, '\n');
      KeepNonBlankAll(lines);
    }
  }

  /** Empty and whitespace-only lines are ignored wherever they appear. */
  lemma BlankLinesIgnored(lines: seq<string>, kind: Kind, parse: NumberParser)
    requires forall l :: l in lines ==> '\n' !in l
    ensures ParseCsv(Join(lines, '\n'), kind, parse) == ParseCsv(Join(KeepNonBlank(lines), '\n'), kind, parse)
  {
    var kept := KeepNonBlank(lines);
    KeepNonBlankKeeps(lines);
    NonBlankLinesOfJoin(kept);
    if |lines| > 0 {
      SplitJoin(lines, '\n');
    }
  }

  /** Text with fewer than two non-blank lines (a header and no data line, or nothing) gives no records. */
  lemma FewerThanTwoLinesGiveNothing(lines: seq<string>, kind: Kind, parse: NumberParser)
    requires forall l :: l in lines ==> '\n' !in l
    requires |KeepNonBlank(lines)| < 2
    ensures ParseCsv(Join(lines, '\n'), kind, parse) == []
  {
    BlankLinesIgnored(lines, kind, parse);
    KeepNonBlankKeeps(lines);
    NonBlankLinesOfJoin(KeepNonBlank(lines));
  }

  /**
   * A header line followed by N non-blank data lines gives exactly N records, in line order,
   * each of the requested kind; with no data line the result is empty.
   */
  lemma ParseCsvRecords(header: string, rows: seq<string>, kind: Kind, parse: NumberParser)
    requires NonBlank(header) && '\n' !in header
    requires forall l :: l in rows ==> NonBlank(l) && '\n' !in l
    ensures var out := ParseCsv(Join([header] + rows, '\n'), kind, parse);
      && |out| == |rows|
      && forall i :: 0 <= i < |rows| ==>
           out[i] == ParseLine(kind, HeaderNames(header), rows[i], parse)
           && (kind == SALES <==> out[i].SaleRecord?)
           && (kind == ITEM <==> out[i].ItemRecord?)
           && (kind == PROMO <==> out[i].PromoRecord?)
  {
    var lines := [header] + rows;
    NonBlankLinesOfJoin(lines);
    forall i | 0 <= i < |rows| ensures lines[i + 1] == rows[i] { }
  }
}
