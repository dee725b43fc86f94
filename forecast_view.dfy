/**
 * The display helpers of the forecast screen (components/ForecastView.tsx): the text of
 * the CSV export, the month label of the chart's x axis, and the headline value of the
 * latest actual sales.
 */
module ForecastView {
  import opened Wrappers
  import opened JsStrings
  import opened Types

  // ---------------------------------------------------------------- CSV export

  const ExportHeader: seq<string> := ["Date", "Actual Sales", "XGBoost", "Random Forest", "LightGBM", "DNN", "Consensus"]

  /** `value ?? ""` inside `join`: an absent number is empty, NaN prints as "NaN". */
  function CellText(v: Option<Num>): string {
    match v
    case None => ""
    case Some(NaN) => "NaN"
    case Some(Finite(n)) => IntToString(n)
  }

  /** The seven fields of a point's row; `join` prints an undefined or null date as empty. */
  function ExportRow(p: ForecastPoint): seq<string> {
    [p.date.GetOr(""), CellText(p.actual), CellText(p.xgboost), CellText(p.randomForest),
     CellText(p.lightGbm), CellText(p.dnn), CellText(p.consensus)]
  }

  function ExportLines(data: seq<ForecastPoint>): seq<string> {
    [Join(ExportHeader, ',')] + seq(|data|, i requires 0 <= i < |data| => Join(ExportRow(data[i]), ','))
  }

  /** The text `downloadCSV` saves, or None when there is nothing to export. */
  function ExportCsv(data: seq<ForecastPoint>): Option<string> {
    if |data| == 0 then None else Some(Join(ExportLines(data), '\n'))
  }

  predicate PlainDate(p: ForecastPoint) {
    ',' !in p.date.GetOr("") && '\n' !in p.date.GetOr("")
  }

  lemma CellTextPlain(v: Option<Num>)
    ensures ',' !in CellText(v) && '\n' !in CellText(v)
  {
    if v.Some? && v.value.Finite? {
      var t := IntToString(v.value.n);
      IntToStringNumeral(v.value.n);
      assert forall i :: 0 <= i < |t| ==> t[i] != ',' && t[i] != '\n';
    }
  }

  lemma ExportRowPlain(p: ForecastPoint, sep: char)
    requires PlainDate(p)
    requires sep == ',' || sep == '\n'
    ensures forall f :: f in ExportRow(p) ==> sep !in f
  {
    CellTextPlain(p.actual);
    CellTextPlain(p.xgboost);
    CellTextPlain(p.randomForest);
    CellTextPlain(p.lightGbm);
    CellTextPlain(p.dnn);
    CellTextPlain(p.consensus);
  }

  lemma {:induction false} JoinAvoids(parts: seq<string>, sep: char, c: char)
    requires c != sep
    requires forall f :: f in parts ==> c !in f
    ensures c !in Join(parts, sep)
    decreases |parts|
  {
    if |parts| > 1 {
      JoinAvoids(parts[1..], sep, c);
      assert parts[0] in parts;
    }
  }

  /** A row's line splits back into its seven fields and holds no newline. */
  lemma ExportLineFields(p: ForecastPoint)
    requires PlainDate(p)
    ensures Split(Join(ExportRow(p), ','), ',') == ExportRow(p)
    ensures '\n' !in Join(ExportRow(p), ',')
  {
    ExportRowPlain(p, ',');
    ExportRowPlain(p, '\n');
    SplitJoin(ExportRow(p), ',');
    JoinAvoids(ExportRow(p), ',', '\n');
  }

  /** The header line splits back into the seven column titles and holds no newline. */
  lemma HeaderLine()
    ensures Split(Join(ExportHeader, ','), ',') == ExportHeader
    ensures '\n' !in Join(ExportHeader, ',')
  {
    assert forall f :: f in ExportHeader ==> ',' !in f && '\n' !in f;
    SplitJoin(ExportHeader, ',');
    JoinAvoids(ExportHeader, ',', '\n');
  }

  /**
   * The export is one header line and then one line per point, in the order of the
   * data, joined by newlines without a trailing one; the header line holds the seven
   * column titles and line i + 1 holds point i's seven fields. Dates must not contain
   * the separators for the text to split back this way.
   */
  lemma ExportLayout(data: seq<ForecastPoint>)
    requires |data| > 0
    requires forall i :: 0 <= i < |data| ==> PlainDate(data[i])
    ensures ExportCsv(data).Some?
    ensures Split(ExportCsv(data).value, '\n') == ExportLines(data)
    ensures |ExportLines(data)| == |data| + 1
    ensures Split(ExportLines(data)[0], ',') == ExportHeader
    ensures forall i :: 0 <= i < |data| ==> Split(ExportLines(data)[i + 1], ',') == ExportRow(data[i])
  {
    var lines := ExportLines(data);
    HeaderLine();
    forall i | 0 <= i < |data| ensures Split(lines[i + 1], ',') == ExportRow(data[i]) && '\n' !in lines[i + 1] {
      assert lines[i + 1] == Join(ExportRow(data[i]), ',');
      ExportLineFields(data[i]);
    }
    forall l | l in lines ensures '\n' !in l {
      var k :| 0 <= k < |lines| && lines[k] == l;
      if k > 0 {
        assert lines[(k - 1) + 1] == l;
      }
    }
    SplitJoin(lines, '\n');
  }

  /** Nothing is exported for an empty series. */
  lemma EmptySeriesNotExported()
    ensures ExportCsv([]) == None
  {
  }

  // ---------------------------------------------------------------- x-axis labels

  const MonthNames: seq<string> := ["Jan", "Feb", "Mar", "Apr", "May", "Jun", "Jul", "Aug", "Sep", "Oct", "Nov", "Dec"]

  /** `monthNames[m - 1]` printed in a template: "undefined" outside January to December. */
  function MonthLabel(m: Option<int>): string {
    match m
    case Some(k) => if 1 <= k <= 12 then MonthNames[k - 1] else "undefined"
    case None => "undefined"
  }

  /** `s.substring(2)`. */
  function FromThirdChar(s: string): string {
    if |s| >= 2 then s[2..] else ""
  }

  /** `formatXAxis`. */
  function FormatXAxis(dateStr: string): string {
    var parts := Split(dateStr, '-');
    if |parts| < 2 then dateStr
    else MonthLabel(ParseInt(parts[1])) + " " + FromThirdChar(parts[0])
  }

  lemma {:induction false} SplitWithoutSeparator(s: string, sep: char)
    ensures |Split(s, sep)| == 1 <==> sep !in s
    decreases |s|
  {
    if |s| > 0 {
      SplitWithoutSeparator(s[1..], sep);
      assert s == [s[0]] + s[1..];
    }
  }

  /** A label leaves its input unchanged exactly when the input has no '-'. */
  lemma FormatXAxisUnchanged(dateStr: string)
    ensures FormatXAxis(dateStr) == dateStr <==> '-' !in dateStr
  {
    SplitWithoutSeparator(dateStr, '-');
    var parts := Split(dateStr, '-');
    if |parts| >= 2 {
      var monthText := MonthLabel(ParseInt(parts[1]));
      assert '-' !in monthText by {
        assert forall k :: 0 <= k < 12 ==> '-' !in MonthNames[k];
      }
      assert parts[0] in parts;
      var year := FromThirdChar(parts[0]);
      assert '-' !in year by {
        if |parts[0]| >= 2 {
          forall i | 0 <= i < |year| ensures year[i] != '-' {
            assert year[i] == parts[0][i + 2];
          }
        }
      }
      var out := monthText + " " + year;
      assert '-' !in out by {
        forall i | 0 <= i < |out| ensures out[i] != '-' {
          if i < |monthText| {
            assert out[i] == monthText[i];
          } else if i > |monthText| {
            assert out[i] == year[i - |monthText| - 1];
          }
        }
      }
    }
  }

  lemma SplitAtSeparator(a: string, b: string, sep: char)
    requires sep !in a
    ensures Split(a + [sep] + b, sep) == [a] + Split(b, sep)
  {
    assert a + [sep] + b == a + ([sep] + b);
    assert ([sep] + b)[0] == sep && ([sep] + b)[1..] == b;
    assert Split([sep] + b, sep) == [""] + Split(b, sep);
    SplitAfterPiece(a, [sep] + b, sep);
    assert a + "" == a;
  }

  lemma SplitIsoDate(y: string, m: string, d: string)
    requires '-' !in y && '-' !in m
    ensures |Split(y + "-" + m + "-" + d, '-')| >= 2
    ensures Split(y + "-" + m + "-" + d, '-')[0] == y && Split(y + "-" + m + "-" + d, '-')[1] == m
  {
    SplitAtSeparator(m, d, '-');
    SplitAtSeparator(y, m + ['-'] + d, '-');
    assert y + "-" + m + "-" + d == y + ['-'] + (m + ['-'] + d);
  }

  /**
   * An ISO-style date `y-m-d` is labelled with the month that `m` names (or "undefined"
   * when it names none) and the year from its third character on.
   */
  lemma FormatXAxisIsoDate(y: string, m: string, d: string)
    requires '-' !in y && '-' !in m
    requires |m| > 0 && forall i :: 0 <= i < |m| ==> IsDigit(m[i])
    ensures FormatXAxis(y + "-" + m + "-" + d) == MonthLabel(Some(DigitsValue(m))) + " " + FromThirdChar(y)
  {
    SplitIsoDate(y, m, d);
    ParseIntDigits(m);
  }

  // ---------------------------------------------------------------- latest actual

  /** The `actual` values that are neither undefined nor null, in order. */
  function PresentActuals(data: seq<ForecastPoint>): seq<Num>
    decreases |data|
  {
    if |data| == 0 then []
    else
      var last := data[|data| - 1];
      PresentActuals(data[..|data| - 1]) + (if last.actual.Some? then [last.actual.value] else [])
  }

  /** `filter(...).slice(-1)[0]?.actual || 0`: 0 when nothing is present, or when the value is 0 or NaN. */
  function LastActualValue(data: seq<ForecastPoint>): int {
    var present := PresentActuals(data);
    if |present| == 0 then 0
    else match present[|present| - 1] case Finite(n) => n case NaN => 0
  }

  lemma {:induction false} PresentActualsSkipAbsent(data: seq<ForecastPoint>, k: nat)
    requires k <= |data|
    requires forall j :: k <= j < |data| ==> data[j].actual.None?
    ensures PresentActuals(data) == PresentActuals(data[..k])
    decreases |data|
  {
    if |data| > k {
      var n := |data| - 1;
      PresentActualsSkipAbsent(data[..n], k);
      assert data[..n][..k] == data[..k];
    } else {
      assert data[..k] == data;
    }
  }

  /**
   * The headline value is the `actual` of the last point that has one (0 for NaN), and 0
   * when no point has one.
   */
  lemma LastActualValueIsLastPresent(data: seq<ForecastPoint>)
    ensures (forall i :: 0 <= i < |data| ==> data[i].actual.None?) ==> LastActualValue(data) == 0
    ensures forall i :: 0 <= i < |data| && data[i].actual.Some? && (forall j :: i < j < |data| ==> data[j].actual.None?)
              ==> LastActualValue(data) == match data[i].actual.value case Finite(n) => n case NaN => 0
  {
    if forall i :: 0 <= i < |data| ==> data[i].actual.None? {
      PresentActualsSkipAbsent(data, 0);
    }
    forall i | 0 <= i < |data| && data[i].actual.Some? && (forall j :: i < j < |data| ==> data[j].actual.None?)
      ensures LastActualValue(data) == match data[i].actual.value case Finite(n) => n case NaN => 0
    {
      PresentActualsSkipAbsent(data, i + 1);
      assert data[..i + 1][..i] == data[..i];
      assert PresentActuals(data[..i + 1]) == PresentActuals(data[..i]) + [data[i].actual.value];
    }
  }
}
