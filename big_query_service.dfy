/**
 * The warehouse side of `fetchForecastFromBigQuery` (services/bigQueryService.ts):
 * classifying a failed query's message, and turning a successful query's rows
 * into forecast points by matching lower-cased column names against an ordered
 * list of rules. The HTTP request itself is not modelled: its response is the input.
 */
module BigQueryService {
  import opened Wrappers
  import opened JsStrings
  import opened Types

  /** A cell's `v`: a string, or null. */
  type Cell = Option<string>

  /** The decoded answer to the query request. */
  datatype Response =
    | Rejected(message: Option<string>)                                // not ok; `error.error?.message`
    | Answered(fieldNames: seq<string>, rows: Option<seq<seq<Cell>>>)  // ok; schema field names and `rows`, which may be absent

  // ---------------------------------------------------------------- failures

  const TokenExpiredMessage := "Access Token has expired. Please run '!gcloud auth print-access-token' in Colab again."
  const TableNotFoundMessage := "Table not found. Please check Project, Dataset, and Table IDs."
  const UnknownErrorMessage := "Unknown BigQuery Error"

  datatype WarehouseError = TokenExpired | TableNotFound | Other(message: string) {
    /** The message of the thrown Error. */
    function Text(): string {
      match this
      case TokenExpired => TokenExpiredMessage
      case TableNotFound => TableNotFoundMessage
      case Other(m) => m
    }
  }

  datatype FetchError =
    | Refused(reason: WarehouseError)
    | UnnamedColumn   // a cell past the schema has no column name, and `name.includes` throws a TypeError

  /** `error.error?.message || "Unknown BigQuery Error"`. */
  function ReportedMessage(message: Option<string>): string {
    if message.Some? && message.value != "" then message.value else UnknownErrorMessage
  }

  /**
   * The error raised for a rejected query: "401" anywhere in the message means an expired
   * token, otherwise "404" means a missing table, otherwise the message is raised as it is.
   */
  function ClassifyError(message: Option<string>): (e: WarehouseError)
    ensures e == TokenExpired <==> HasSubstring(ReportedMessage(message), "401")
    ensures e == TableNotFound <==>
      !HasSubstring(ReportedMessage(message), "401") && HasSubstring(ReportedMessage(message), "404")
    ensures e.Other? <==>
      !HasSubstring(ReportedMessage(message), "401") && !HasSubstring(ReportedMessage(message), "404")
    ensures e.Other? ==> e.message == ReportedMessage(message)
  {
    var msg := ReportedMessage(message);
    IncludesIff(msg, "401");
    IncludesIff(msg, "404");
    if Includes(msg, "401") then TokenExpired
    else if Includes(msg, "404") then TableNotFound
    else Other(msg)
  }

  /** A rejection without a message is reported as "Unknown BigQuery Error". */
  lemma MissingMessageIsUnknown(message: Option<string>)
    requires message.None? || message == Some("")
    ensures ClassifyError(message) == Other(UnknownErrorMessage)
  {
    assert '4' !in UnknownErrorMessage;
    NoSubstringWithoutChar(UnknownErrorMessage, "401");
    NoSubstringWithoutChar(UnknownErrorMessage, "404");
  }

  // ---------------------------------------------------------------- column classification

  /** The point field a column feeds, if any. */
  datatype Target = DateColumn | XGBoostColumn | RandomForestColumn | LightGbmColumn | DnnColumn | ConsensusColumn | ActualColumn | Unmapped

  /** The if/else-if chain applied to each lower-cased column name. */
  function ClassifyColumn(name: string): Target {
    if name == "date" then DateColumn
    else if Includes(name, "xgboost") then XGBoostColumn
    else if Includes(name, "random_forest") || Includes(name, "randomforest") then RandomForestColumn
    else if Includes(name, "light_gbm") || Includes(name, "lightgbm") then LightGbmColumn
    else if Includes(name, "dnn") then DnnColumn
    else if Includes(name, "consensus") then ConsensusColumn
    else if name == "actual" || name == "quantity" then ActualColumn
    else Unmapped
  }

  /** A rule matches a name equal to one of `exact` or containing one of `fragments`. */
  datatype Rule = Rule(exact: seq<string>, fragments: seq<string>, target: Target)

  /** The column-naming rules, highest priority first. */
  const ColumnRules: seq<Rule> := [
    Rule(["date"], [], DateColumn),
    Rule([], ["xgboost"], XGBoostColumn),
    Rule([], ["random_forest", "randomforest"], RandomForestColumn),
    Rule([], ["light_gbm", "lightgbm"], LightGbmColumn),
    Rule([], ["dnn"], DnnColumn),
    Rule([], ["consensus"], ConsensusColumn),
    Rule(["actual", "quantity"], [], ActualColumn)
  ]

  ghost predicate RuleMatches(rule: Rule, name: string) {
    name in rule.exact || exists f :: f in rule.fragments && HasSubstring(name, f)
  }

  /** The target of the first rule from index `k` on that matches `name`, or Unmapped. */
  ghost function FirstMatchFrom(rules: seq<Rule>, k: nat, name: string): Target
    requires k <= |rules|
    decreases |rules| - k
  {
    if k == |rules| then Unmapped
    else if RuleMatches(rules[k], name) then rules[k].target
    else FirstMatchFrom(rules, k + 1, name)
  }

  ghost function FirstMatch(rules: seq<Rule>, name: string): Target {
    FirstMatchFrom(rules, 0, name)
  }

  lemma {:induction false} FirstMatchFromIsEarliest(rules: seq<Rule>, from: nat, name: string)
    requires from <= |rules|
    ensures forall k :: from <= k < |rules| && RuleMatches(rules[k], name)
              && (forall j :: from <= j < k ==> !RuleMatches(rules[j], name))
              ==> FirstMatchFrom(rules, from, name) == rules[k].target
    ensures (forall k :: from <= k < |rules| ==> !RuleMatches(rules[k], name))
              ==> FirstMatchFrom(rules, from, name) == Unmapped
    decreases |rules| - from
  {
    if from < |rules| {
      FirstMatchFromIsEarliest(rules, from + 1, name);
      if RuleMatches(rules[from], name) {
        var first := rules[from];
        forall k | from <= k < |rules| && RuleMatches(rules[k], name)
                   && (forall j :: from <= j < k ==> !RuleMatches(rules[j], name))
          ensures k == from
        {
          assert from < k ==> !RuleMatches(first, name);
        }
      } else {
        assert FirstMatchFrom(rules, from, name) == FirstMatchFrom(rules, from + 1, name);
      }
    }
  }

  /** The first-match reading of a rule list: the earliest matching rule decides, and no match means Unmapped. */
  lemma FirstMatchIsEarliest(rules: seq<Rule>, name: string)
    ensures forall k :: 0 <= k < |rules| && RuleMatches(rules[k], name)
              && (forall j :: 0 <= j < k ==> !RuleMatches(rules[j], name))
              ==> FirstMatch(rules, name) == rules[k].target
    ensures (forall k :: 0 <= k < |rules| ==> !RuleMatches(rules[k], name)) ==> FirstMatch(rules, name) == Unmapped
  {
    FirstMatchFromIsEarliest(rules, 0, name);
  }

  /** Which of the rules match, in terms of the substring tests of the chain. */
  lemma ColumnRuleMatches(name: string)
    ensures RuleMatches(ColumnRules[0], name) <==> name == "date"
    ensures RuleMatches(ColumnRules[1], name) <==> Includes(name, "xgboost")
    ensures RuleMatches(ColumnRules[2], name) <==> Includes(name, "random_forest") || Includes(name, "randomforest")
    ensures RuleMatches(ColumnRules[3], name) <==> Includes(name, "light_gbm") || Includes(name, "lightgbm")
    ensures RuleMatches(ColumnRules[4], name) <==> Includes(name, "dnn")
    ensures RuleMatches(ColumnRules[5], name) <==> Includes(name, "consensus")
    ensures RuleMatches(ColumnRules[6], name) <==> name == "actual" || name == "quantity"
  {
    IncludesIff(name, "xgboost");
    IncludesIff(name, "random_forest");
    IncludesIff(name, "randomforest");
    IncludesIff(name, "light_gbm");
    IncludesIff(name, "lightgbm");
    IncludesIff(name, "dnn");
    IncludesIff(name, "consensus");
    assert ColumnRules[2].fragments == ["random_forest", "randomforest"];
    assert ColumnRules[3].fragments == ["light_gbm", "lightgbm"];
    if HasSubstring(name, "random_forest") {
      assert "random_forest" in ColumnRules[2].fragments;
    }
    if HasSubstring(name, "randomforest") {
      assert "randomforest" in ColumnRules[2].fragments;
    }
    if HasSubstring(name, "light_gbm") {
      assert "light_gbm" in ColumnRules[3].fragments;
    }
    if HasSubstring(name, "lightgbm") {
      assert "lightgbm" in ColumnRules[3].fragments;
    }
    if Includes(name, "xgboost") {
      assert "xgboost" in ColumnRules[1].fragments;
    }
    if Includes(name, "dnn") {
      assert "dnn" in ColumnRules[4].fragments;
    }
    if Includes(name, "consensus") {
      assert "consensus" in ColumnRules[5].fragments;
    }
  }

  /**
   * The if/else-if chain is the rule table applied first-match: a column feeds the
   * field of the earliest rule it matches, and no field if it matches none.
   */
  lemma ClassifyColumnFollowsRules(name: string)
    ensures ClassifyColumn(name) == FirstMatch(ColumnRules, name)
  {
    ColumnRuleMatches(name);
    var r := ColumnRules;
    assert FirstMatchFrom(r, 7, name) == Unmapped;
    assert FirstMatchFrom(r, 6, name) == if RuleMatches(r[6], name) then ActualColumn else Unmapped;
    assert FirstMatchFrom(r, 5, name) == if RuleMatches(r[5], name) then ConsensusColumn else FirstMatchFrom(r, 6, name);
    assert FirstMatchFrom(r, 4, name) == if RuleMatches(r[4], name) then DnnColumn else FirstMatchFrom(r, 5, name);
    assert FirstMatchFrom(r, 3, name) == if RuleMatches(r[3], name) then LightGbmColumn else FirstMatchFrom(r, 4, name);
    assert FirstMatchFrom(r, 2, name) == if RuleMatches(r[2], name) then RandomForestColumn else FirstMatchFrom(r, 3, name);
    assert FirstMatchFrom(r, 1, name) == if RuleMatches(r[1], name) then XGBoostColumn else FirstMatchFrom(r, 2, name);
    assert FirstMatchFrom(r, 0, name) == if RuleMatches(r[0], name) then DateColumn else FirstMatchFrom(r, 1, name);
  }

  // ---------------------------------------------------------------- rows to points

  /** `parseFloat(cell.v)`: NaN for a null cell or text that is not a number. */
  function ToNumber(v: Cell, parse: NumberParser): Num {
    match v
    case None => NaN
    case Some(s) => match parse(s) case None => NaN case Some(n) => Finite(n)
  }

  /** The assignment the chain makes for one cell. */
  function Assign(p: ForecastPoint, target: Target, v: Cell, parse: NumberParser): ForecastPoint {
    match target
    case DateColumn => p.(date := v)
    case XGBoostColumn => p.(xgboost := Some(ToNumber(v, parse)))
    case RandomForestColumn => p.(randomForest := Some(ToNumber(v, parse)))
    case LightGbmColumn => p.(lightGbm := Some(ToNumber(v, parse)))
    case DnnColumn => p.(dnn := Some(ToNumber(v, parse)))
    case ConsensusColumn => p.(consensus := Some(ToNumber(v, parse)))
    case ActualColumn => p.(actual := Some(ToNumber(v, parse)))
    case Unmapped => p
  }

  /** The point after the assignments for the first |cells| cells of a row, in cell order. */
  function RowToPoint(fields: seq<string>, cells: seq<Cell>, parse: NumberParser): ForecastPoint
    requires |cells| <= |fields|
    decreases |cells|
  {
    if |cells| == 0 then EmptyPoint
    else
      var n := |cells| - 1;
      Assign(RowToPoint(fields, cells[..n], parse), ClassifyColumn(fields[n]), cells[n], parse)
  }

  /** The `row.f.forEach` loop that fills one point cell by cell. */
  method MapRow(fields: seq<string>, cells: seq<Cell>, parse: NumberParser) returns (p: ForecastPoint)
    requires |cells| <= |fields|
    ensures p == RowToPoint(fields, cells, parse)
  {
    p := EmptyPoint;
    var idx := 0;
    while idx < |cells|
      invariant 0 <= idx <= |cells|
      invariant p == RowToPoint(fields, cells[..idx], parse)
    {
      var name := fields[idx];
      var val := cells[idx];
      if name == "date" {
        p := p.(date := val);
      } else if Includes(name, "xgboost") {
        p := p.(xgboost := Some(ToNumber(val, parse)));
      } else if Includes(name, "random_forest") || Includes(name, "randomforest") {
        p := p.(randomForest := Some(ToNumber(val, parse)));
      } else if Includes(name, "light_gbm") || Includes(name, "lightgbm") {
        p := p.(lightGbm := Some(ToNumber(val, parse)));
      } else if Includes(name, "dnn") {
        p := p.(dnn := Some(ToNumber(val, parse)));
      } else if Includes(name, "consensus") {
        p := p.(consensus := Some(ToNumber(val, parse)));
      } else if name == "actual" || name == "quantity" {
        p := p.(actual := Some(ToNumber(val, parse)));
      }
      assert cells[..idx + 1][..idx] == cells[..idx];
      idx := idx + 1;
    }
    assert cells[..|cells|] == cells;
  }

  /** The last of the first `n` columns that feeds `target`. */
  function LastColumnFor(fields: seq<string>, n: nat, target: Target): (r: Option<nat>)
    requires n <= |fields|
    ensures r.Some? ==> r.value < n && ClassifyColumn(fields[r.value]) == target
    ensures r.Some? ==> forall j :: r.value < j < n ==> ClassifyColumn(fields[j]) != target
    ensures r.None? ==> forall j :: 0 <= j < n ==> ClassifyColumn(fields[j]) != target
    decreases n
  {
    if n == 0 then None
    else if ClassifyColumn(fields[n - 1]) == target then Some(n - 1)
    else LastColumnFor(fields, n - 1, target)
  }

  /** The numeric field of a point that `target` feeds. */
  function NumberSlot(p: ForecastPoint, target: Target): Option<Num>
    requires target != DateColumn && target != Unmapped
  {
    match target
    case XGBoostColumn => p.xgboost
    case RandomForestColumn => p.randomForest
    case LightGbmColumn => p.lightGbm
    case DnnColumn => p.dnn
    case ConsensusColumn => p.consensus
    case ActualColumn => p.actual
  }

  /**
   * Each field of a row's point comes from the last column that feeds it, the date
   * verbatim and the others through `parseFloat`; a field no column feeds is absent.
   */
  lemma {:induction false} RowToPointLastColumnWins(fields: seq<string>, cells: seq<Cell>, parse: NumberParser)
    requires |cells| <= |fields|
    ensures RowToPoint(fields, cells, parse).date
         == match LastColumnFor(fields, |cells|, DateColumn) case None => None case Some(i) => cells[i]
    ensures forall t :: t != DateColumn && t != Unmapped ==>
              NumberSlot(RowToPoint(fields, cells, parse), t)
              == match LastColumnFor(fields, |cells|, t) case None => None case Some(i) => Some(ToNumber(cells[i], parse))
    decreases |cells|
  {
    if |cells| > 0 {
      var n := |cells| - 1;
      RowToPointLastColumnWins(fields, cells[..n], parse);
      assert |cells[..n]| == n;
      forall i | 0 <= i < n ensures cells[..n][i] == cells[i] { }
    }
  }

  // ---------------------------------------------------------------- the response

  function LowerAll(names: seq<string>): seq<string> {
    seq(|names|, i requires 0 <= i < |names| => ToLower(names[i]))
  }

  predicate WithinSchema(rows: seq<seq<Cell>>, width: nat) {
    forall i :: 0 <= i < |rows| ==> |rows[i]| <= width
  }

  /** What `fetchForecastFromBigQuery` returns or throws for a response. */
  function FetchForecast(response: Response, parse: NumberParser): Result<seq<ForecastPoint>, FetchError> {
    match response
    case Rejected(message) => Err(Refused(ClassifyError(message)))
    case Answered(_, None) => Ok([])
    case Answered(names, Some(rows)) =>
      var fields := LowerAll(names);
      if !WithinSchema(rows, |fields|) then Err(UnnamedColumn)
      else Ok(seq(|rows|, i requires 0 <= i < |rows| => RowToPoint(fields, rows[i], parse)))
  }

  /**
   * A successful query gives one point per row, in row order, with no sorting and no merging
   * of equal dates; each point's date is the cell of the last `date` column, copied verbatim.
   */
  lemma FetchForecastOnePointPerRow(names: seq<string>, rows: seq<seq<Cell>>, parse: NumberParser)
    requires WithinSchema(rows, |names|)
    ensures var r := FetchForecast(Answered(names, Some(rows)), parse);
      && r.Ok? && |r.value| == |rows|
      && forall i :: 0 <= i < |rows| ==>
           && r.value[i] == RowToPoint(LowerAll(names), rows[i], parse)
           && r.value[i].date == match LastColumnFor(LowerAll(names), |rows[i]|, DateColumn)
                                 case None => None case Some(k) => rows[i][k]
  {
    forall i | 0 <= i < |rows| {
      RowToPointLastColumnWins(LowerAll(names), rows[i], parse);
    }
  }

  /** A successful query without `rows` is an empty series, not an error. */
  lemma NoRowsIsEmptySeries(names: seq<string>, parse: NumberParser)
    ensures FetchForecast(Answered(names, None), parse) == Ok([])
  {
  }
}
