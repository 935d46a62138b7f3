/**
 * The application layer: which menu features the dataset's columns enable, how a menu choice
 * is dispatched, and the forecasting branch, which prepares the modelling table, trains the
 * demand forecaster, forecasts the seven days after the data and detects the demand trend.
 */
module App {
  import opened Wrappers
  import opened Values
  import opened Tables
  import opened Encoding
  import opened Trend
  import opened Forecaster
  import opened Ranking

  // ---------------------------------------------------------------------------
  // Feature detection and the menu

  /** The keys of the dictionary `detect_available_features` returns (`'low_stock'` and so on). */
  datatype Feature = LowStock | Reorder | Expiring | Turnover | Visualization | Seasonal | Forecasting

  /** The keys in the order of the menu options 2 to 8 they gate. */
  const FeatureKeys: seq<Feature> := [LowStock, Reorder, Expiring, Turnover, Visualization, Seasonal, Forecasting]

  /** The two columns either of which gives the data a time axis. */
  const DateColumns: seq<string> := ["Date_Received", "Last_Order_Date"]

  /** `all(col in df.columns for col in cols)`. */
  predicate HasAll(t: Table, cols: seq<string>) {
    forall c :: c in cols ==> Has(t, c)
  }

  /** `any(col in df.columns for col in cols)`. */
  predicate HasAny(t: Table, cols: seq<string>) {
    exists c :: c in cols && Has(t, c)
  }

  /** The column `df.rename` renames to `demand`: Stock_Quantity when present, else Sales_Volume. */
  function TargetColumn(t: Table): (r: string)
    ensures r == "Stock_Quantity" || r == "Sales_Volume"
    ensures r == "Stock_Quantity" <==> Has(t, "Stock_Quantity")
  {
    if Has(t, "Stock_Quantity") then "Stock_Quantity" else "Sales_Volume"
  }

  /** A demand column exists under either name. */
  predicate HasTarget(t: Table) {
    Has(t, "Stock_Quantity") || Has(t, "Sales_Volume")
  }

  /**
   * Renaming the target to `demand` keeps the column labels distinct: the dataset does not
   * have both a target column and a column already called `demand`.
   */
  predicate RenameKeepsLabels(t: Table) {
    !(HasTarget(t) && Has(t, "demand"))
  }

  /** After the rename a `demand` column exists: the renamed target, or one the dataset already had. */
  predicate HasDemand(t: Table) {
    HasTarget(t) || Has(t, "demand")
  }

  /** The column of the dataset whose cells end up under `demand`. */
  function DemandColumn(t: Table): (r: string)
    ensures HasDemand(t) ==> Has(t, r)
  {
    if HasTarget(t) then TargetColumn(t) else "demand"
  }

  /** The time column: Date_Received when present, else Last_Order_Date, else none. */
  function DateColumn(t: Table): (r: Option<string>)
    ensures r.Some? <==> HasAny(t, DateColumns)
    ensures r.Some? ==> r.value in DateColumns && Has(t, r.value)
    ensures r == Some("Last_Order_Date") ==> !Has(t, "Date_Received")
  {
    if Has(t, "Date_Received") then Some("Date_Received")
    else if Has(t, "Last_Order_Date") then
      assert "Last_Order_Date" in DateColumns;
      Some("Last_Order_Date")
    else None
  }

  /** The column-presence condition behind each key of the dictionary. */
  predicate Available(t: Table, k: Feature) {
    match k
    case LowStock => HasAll(t, ["Stock_Quantity", "Reorder_Level"])
    case Reorder => HasAll(t, ["Stock_Quantity", "Reorder_Level", "Status"])
    case Expiring => Has(t, "Expiration_Date")
    case Turnover => Has(t, "Sales_Volume") && Has(t, "Stock_Quantity")
    case Visualization => Has(t, "Catagory") && Has(t, "Stock_Quantity")
    case Seasonal => HasAny(t, DateColumns) && Has(t, "Sales_Volume")
    case Forecasting => Has(t, "Stock_Quantity") && HasAny(t, DateColumns)
  }

  /**
   * `detect_available_features`: all seven keys are always present; each value is whether
   * the columns the feature needs exist.
   */
  function DetectAvailableFeatures(t: Table): (r: map<Feature, bool>)
    ensures forall k: Feature :: k in r
    ensures r[LowStock] <==> Has(t, "Stock_Quantity") && Has(t, "Reorder_Level")
    ensures r[Reorder] <==> r[LowStock] && Has(t, "Status")
    ensures r[Expiring] <==> Has(t, "Expiration_Date")
    ensures r[Turnover] <==> Has(t, "Sales_Volume") && Has(t, "Stock_Quantity")
    ensures r[Visualization] <==> Has(t, "Catagory") && Has(t, "Stock_Quantity")
    ensures r[Seasonal] <==> DateColumn(t).Some? && Has(t, "Sales_Volume")
    ensures r[Forecasting] <==> TargetColumn(t) == "Stock_Quantity" && DateColumn(t).Some?
  {
    var r := map k | k in FeatureKeys :: Available(t, k);
    forall k: Feature ensures k in r {
      var i := FeatureIndex(k);
      assert FeatureKeys[i] in FeatureKeys;
    }
    AvailableByColumns(t);
    r
  }

  /** The list tests `all(...)` and `any(...)` spelled out column by column. */
  lemma AvailableByColumns(t: Table)
    ensures Available(t, LowStock) <==> Has(t, "Stock_Quantity") && Has(t, "Reorder_Level")
    ensures Available(t, Reorder) <==> Has(t, "Stock_Quantity") && Has(t, "Reorder_Level") && Has(t, "Status")
    ensures Available(t, Seasonal) <==> DateColumn(t).Some? && Has(t, "Sales_Volume")
    ensures Available(t, Forecasting) <==> Has(t, "Stock_Quantity") && DateColumn(t).Some?
  {
    HasAllOf(t, ["Stock_Quantity", "Reorder_Level"]);
    HasAllOf(t, ["Stock_Quantity", "Reorder_Level", "Status"]);
  }

  lemma HasAllOf(t: Table, cols: seq<string>)
    requires 2 <= |cols| <= 3
    ensures |cols| == 2 ==> (HasAll(t, cols) <==> Has(t, cols[0]) && Has(t, cols[1]))
    ensures |cols| == 3 ==> (HasAll(t, cols) <==> Has(t, cols[0]) && Has(t, cols[1]) && Has(t, cols[2]))
  {
    assert cols[0] in cols && cols[1] in cols && cols[|cols| - 1] in cols;
    assert forall c :: c in cols ==> c == cols[0] || c == cols[1] || c == cols[|cols| - 1];
  }

  /** The position of a key in the menu order. */
  function FeatureIndex(k: Feature): (i: nat)
    ensures i < |FeatureKeys| && FeatureKeys[i] == k
  {
    match k
    case LowStock => 0
    case Reorder => 1
    case Expiring => 2
    case Turnover => 3
    case Visualization => 4
    case Seasonal => 5
    case Forecasting => 6
  }

  /** What a menu choice runs. */
  datatype Action =
    | ViewStatus | CheckLowStock | ListReorders | ViewExpiring | AnalyzeTurnover
    | PlotStockLevels | PlotSeasonalTurnover | RunForecast | Exit | Invalid

  function ActionOf(n: int): Action
    requires 1 <= n <= 9
  {
    [ViewStatus, CheckLowStock, ListReorders, ViewExpiring, AnalyzeTurnover,
     PlotStockLevels, PlotSeasonalTurnover, RunForecast, Exit][n - 1]
  }

  /** The key that the display and the dispatch of option `n` look up. */
  function OptionKey(n: int): Feature
    requires 2 <= n <= 8
  {
    FeatureKeys[n - 2]
  }

  /** The text the user types for option `n`. */
  function ChoiceText(n: int): string
    requires 1 <= n <= 9
  {
    [('0' as int + n) as char]
  }

  /** The option a typed text names: one of the digits 1 to 9, and nothing else. */
  function ChoiceNumber(choice: string): (r: Option<int>)
    ensures r.Some? ==> 1 <= r.value <= 9 && choice == ChoiceText(r.value)
    ensures forall n :: 1 <= n <= 9 && choice == ChoiceText(n) ==> r == Some(n)
  {
    if |choice| == 1 && '1' <= choice[0] <= '9' then
      var n := choice[0] as int - '0' as int;
      assert choice == ChoiceText(n);
      Some(n)
    else None
  }

  /** Option `n` is acted on: 1 and 9 always, the others when their key is in the dictionary. */
  predicate Enabled(features: map<Feature, bool>, n: int) {
    n == 1 || n == 9 || (2 <= n <= 8 && OptionKey(n) in features)
  }

  /** The options `from..9` that `display_menu` lists, in order. */
  function ListedFrom(features: map<Feature, bool>, from: int): (r: seq<int>)
    requires 1 <= from <= 10
    ensures forall n :: n in r <==> from <= n <= 9 && Enabled(features, n)
    ensures forall i :: 0 <= i < |r| ==> from <= r[i] <= 9
    ensures forall i, j :: 0 <= i < j < |r| ==> r[i] < r[j]
    decreases 10 - from
  {
    if from == 10 then []
    else (if Enabled(features, from) then [from] else []) + ListedFrom(features, from + 1)
  }

  /** `display_menu`: the option numbers listed, in order; a gate tests the key, not its value. */
  function MenuOptions(features: map<Feature, bool>): (r: seq<int>)
    ensures forall n :: n in r <==> 1 <= n <= 9 && Enabled(features, n)
    ensures forall i, j :: 0 <= i < j < |r| ==> r[i] < r[j]
  {
    ListedFrom(features, 1)
  }

  /**
   * One step of the menu loop. The branches test `choice == "1"`, ..., `choice == "9"` in
   * turn, each of options 2 to 8 together with its key; at most one text test can pass, so the
   * chain runs the option the text names when that option is enabled, and is invalid otherwise.
   */
  function Dispatch(features: map<Feature, bool>, choice: string): Action {
    match ChoiceNumber(choice)
    case Some(n) => if Enabled(features, n) then ActionOf(n) else Invalid
    case None => Invalid
  }

  /** A choice runs option `n` exactly when it is `n`'s text and `n` is enabled; anything else is invalid. */
  lemma DispatchCorrect(features: map<Feature, bool>, choice: string)
    ensures Dispatch(features, choice) != Invalid <==>
      exists n :: 1 <= n <= 9 && choice == ChoiceText(n) && Enabled(features, n)
    ensures forall n :: 1 <= n <= 9 && choice == ChoiceText(n) && Enabled(features, n) ==>
      Dispatch(features, choice) == ActionOf(n)
  {
    var c := ChoiceNumber(choice);
    if c.Some? && Enabled(features, c.value) {
      assert ActionOf(c.value) != Invalid;
    }
  }

  /** With every gating key present, options `from..9` are all listed. */
  lemma {:induction false} ListedAll(features: map<Feature, bool>, from: int)
    requires 1 <= from <= 10 && forall k: Feature :: k in features
    ensures |ListedFrom(features, from)| == 10 - from
    ensures forall i :: 0 <= i < 10 - from ==> ListedFrom(features, from)[i] == from + i
    decreases 10 - from
  {
    if from < 10 {
      ListedAll(features, from + 1);
      assert Enabled(features, from);
    }
  }

  /**
   * Because the gates test key membership and the detected dictionary always holds all seven
   * keys, every option is listed whatever the dataset's columns...
   */
  lemma EveryOptionListed(t: Table)
    ensures |MenuOptions(DetectAvailableFeatures(t))| == 9
    ensures forall i :: 0 <= i < 9 ==> MenuOptions(DetectAvailableFeatures(t))[i] == i + 1
  {
    ListedAll(DetectAvailableFeatures(t), 1);
  }

  /** ... and every option's text runs that option. */
  lemma EveryChoiceAccepted(t: Table, n: int)
    requires 1 <= n <= 9
    ensures Dispatch(DetectAvailableFeatures(t), ChoiceText(n)) == ActionOf(n)
  {
    assert Enabled(DetectAvailableFeatures(t), n);
  }

  /** Only the keys matter: two dictionaries with the same keys give the same menu ... */
  lemma MenuIgnoresValues(a: map<Feature, bool>, b: map<Feature, bool>)
    requires a.Keys == b.Keys
    ensures MenuOptions(a) == MenuOptions(b)
  {
    ListedSame(a, b, 1);
  }

  /** ... and the same dispatch. */
  lemma DispatchIgnoresValues(a: map<Feature, bool>, b: map<Feature, bool>, choice: string)
    requires a.Keys == b.Keys
    ensures Dispatch(a, choice) == Dispatch(b, choice)
  {
    match ChoiceNumber(choice)
    case Some(n) =>
      if 2 <= n <= 8 {
        assert OptionKey(n) in a <==> OptionKey(n) in b;
      }
    case None =>
  }

  lemma {:induction false} ListedSame(a: map<Feature, bool>, b: map<Feature, bool>, from: int)
    requires a.Keys == b.Keys && 1 <= from <= 10
    ensures ListedFrom(a, from) == ListedFrom(b, from)
    decreases 10 - from
  {
    if from < 10 {
      ListedSame(a, b, from + 1);
    }
  }

  // ---------------------------------------------------------------------------
  // The forecasting table

  /** Renaming turns `from` into `to` and leaves every other column name as it is. */
  lemma RenamedNames(cols: seq<Column>, from: string, to: string)
    requires from in Names(cols)
    ensures to in Names(RenameNames(cols, from, to))
    ensures forall d :: d != from && d != to ==> (d in Names(RenameNames(cols, from, to)) <==> d in Names(cols))
  {
    var r := RenameNames(cols, from, to);
    var i :| 0 <= i < |cols| && Names(cols)[i] == from;
    assert Names(r)[i] == to;
    forall d | d != from && d != to ensures d in Names(r) <==> d in Names(cols) {
      RenameKeeps(cols, from, to, d);
    }
  }

  lemma RenameKeeps(cols: seq<Column>, from: string, to: string, d: string)
    requires d != from && d != to
    ensures d in Names(RenameNames(cols, from, to)) <==> d in Names(cols)
  {
    var r := RenameNames(cols, from, to);
    if d in Names(r) {
      var j :| 0 <= j < |r| && Names(r)[j] == d;
      assert Names(cols)[j] == d;
    }
    if d in Names(cols) {
      var j :| 0 <= j < |cols| && Names(cols)[j] == d;
      assert Names(r)[j] == d;
    }
  }

  /** The renamed column keeps its dtype. */
  lemma {:induction false} RenamedKind(cols: seq<Column>, from: string, to: string)
    requires from in Names(cols) && to !in Names(cols) && from != to
    ensures to in Names(RenameNames(cols, from, to))
    ensures KindOf(RenameNames(cols, from, to), to) == KindOf(cols, from)
  {
    var r := RenameNames(cols, from, to);
    assert Names(cols)[0] == cols[0].name;
    if cols[0].name != from {
      assert Names(cols)[1..] == Names(cols[1..]);
      assert r[1..] == RenameNames(cols[1..], from, to);
      RenamedKind(cols[1..], from, to);
      assert Names(r)[1..] == Names(r[1..]);
    } else {
      assert Names(r)[0] == to;
    }
  }

  /** `df.rename(columns={from: to})` on one row: the cell moves from `from` to `to`. */
  function RenameRow(r: Row, from: string, to: string): (p: Row)
    ensures forall d :: Cell(p, d) == if d == to then Cell(r, from) else if d == from then Missing else Cell(r, d)
  {
    var rest := map k | k in r && k != from && k != to :: r[k];
    if from in r then rest[to := r[from]] else rest
  }

  function RenameNames(cols: seq<Column>, from: string, to: string): (r: seq<Column>)
    ensures |r| == |cols|
    ensures forall i :: 0 <= i < |cols| ==> r[i] == if cols[i].name == from then Column(to, cols[i].kind) else cols[i]
  {
    seq(|cols|, i requires 0 <= i < |cols| => if cols[i].name == from then Column(to, cols[i].kind) else cols[i])
  }

  /** `df.rename(columns={from: to})`: renames column `from`, and does nothing when it is absent. */
  function RenameColumn(t: Table, from: string, to: string): (r: Table)
    requires from != to
    ensures |r.rows| == |t.rows|
    ensures !Has(t, from) ==> r == t
    ensures Has(t, from) ==> Has(r, to)
    ensures forall d :: d != from && d != to ==> (Has(r, d) <==> Has(t, d))
    ensures Has(t, from) ==> forall i, d :: 0 <= i < |t.rows| ==>
      Cell(r.rows[i], d) == if d == to then Cell(t.rows[i], from) else if d == from then Missing else Cell(t.rows[i], d)
  {
    if !Has(t, from) then t
    else
      var cols := RenameNames(t.columns, from, to);
      RenamedNames(t.columns, from, to);
      Table(cols, seq(|t.rows|, i requires 0 <= i < |t.rows| => RenameRow(t.rows[i], from, to)))
  }

  /** `pd.to_datetime` on a cell of a date column the loader has already converted: dates stay, all else is NaT. */
  function AsDate(v: Value): (r: Value)
    ensures r.Date? <==> v.Date?
    ensures v.Date? ==> r == v
  {
    if v.Date? then v else Missing
  }

  function AsDates(vals: seq<Value>): (r: seq<Value>)
    ensures |r| == |vals| && forall i :: 0 <= i < |vals| ==> r[i] == AsDate(vals[i])
  {
    seq(|vals|, i requires 0 <= i < |vals| => AsDate(vals[i]))
  }

  /** The earliest date of a column (`min` skips NaT); none when it holds no date. */
  function MinDay(vals: seq<Value>): (r: Option<int>)
    ensures r.None? <==> forall i :: 0 <= i < |vals| ==> !vals[i].Date?
    ensures r.Some? ==> exists i :: 0 <= i < |vals| && vals[i] == Date(r.value)
    ensures r.Some? ==> forall i :: 0 <= i < |vals| && vals[i].Date? ==> r.value <= vals[i].day
  {
    if vals == [] then None
    else
      var rest := MinDay(vals[1..]);
      assert forall i :: 1 <= i < |vals| ==> vals[i] == vals[1..][i - 1];
      if !vals[0].Date? then
        if rest.Some? then
          var j :| 0 <= j < |vals[1..]| && vals[1..][j] == Date(rest.value);
          assert vals[j + 1] == Date(rest.value);
          rest
        else rest
      else if rest.Some? && rest.value < vals[0].day then
        var j :| 0 <= j < |vals[1..]| && vals[1..][j] == Date(rest.value);
        assert vals[j + 1] == Date(rest.value);
        rest
      else
        Some(vals[0].day)
  }

  /**
   * `(df[date_col] - df[date_col].min()).dt.days`: each date's whole-day offset from the
   * earliest one, so every offset is a whole number at least 0, 0 is attained, differences
   * between dates are kept, and NaT stays missing.
   */
  function DayOffsets(vals: seq<Value>): (r: seq<Value>)
    ensures |r| == |vals|
    ensures forall i :: 0 <= i < |vals| ==> (r[i].Num? <==> vals[i].Date?) && (!r[i].Num? ==> r[i] == Missing)
    ensures forall i :: 0 <= i < |vals| && r[i].Num? ==> r[i].x >= 0.0 && r[i].x == r[i].x.Floor as real
    ensures (exists i :: 0 <= i < |vals| && vals[i].Date?) ==> exists i :: 0 <= i < |vals| && r[i] == Num(0.0)
    ensures forall i, j :: 0 <= i < |vals| && 0 <= j < |vals| && vals[i].Date? && vals[j].Date? ==>
      r[i].x - r[j].x == (vals[i].day - vals[j].day) as real
  {
    var m := MinDay(vals);
    var r := seq(|vals|, i requires 0 <= i < |vals| =>
      if vals[i].Date? && m.Some? then Num((vals[i].day - m.value) as real) else Missing);
    assert m.Some? ==> exists k :: 0 <= k < |vals| && r[k] == Num(0.0) by {
      if m.Some? {
        var k :| 0 <= k < |vals| && vals[k] == Date(m.value);
        assert r[k] == Num(0.0);
      }
    }
    r
  }

  /** `range(len(df))` as a column. */
  function RowIndex(n: nat): (r: seq<Value>)
    ensures |r| == n && forall i :: 0 <= i < n ==> r[i] == Num(i as real)
  {
    seq(n, i => Num(i as real))
  }

  /**
   * The model's features, in order: day_index when there is a date column, Catagory when it
   * exists, and day_index on the row index only when neither applies.
   */
  function ModelFeatures(t: Table): (r: seq<string>)
    ensures ("Catagory" in r <==> Has(t, "Catagory"))
    ensures ("day_index" in r <==> DateColumn(t).Some? || !Has(t, "Catagory"))
    ensures r == ["day_index"] || r == ["Catagory"] || r == ["day_index", "Catagory"]
    ensures r == ["Catagory"] <==> DateColumn(t).None? && Has(t, "Catagory")
  {
    var dated := if DateColumn(t).Some? then ["day_index"] else [];
    var chosen := dated + if Has(t, "Catagory") then ["Catagory"] else [];
    if chosen == [] then ["day_index"] else chosen
  }

  /** The `day_index` column: date offsets when there is a date column, else the row index. */
  function DayIndexOf(t: Table): (r: seq<Value>)
    ensures |r| == |t.rows|
  {
    match DateColumn(t)
    case Some(c) => DayOffsets(AsDates(ColumnValues(t, c)))
    case None => RowIndex(|t.rows|)
  }

  /** The day index is a whole number of at least 0 wherever it is defined, and 0 wherever it is defined at all is attained. */
  lemma DayIndexBounds(t: Table)
    ensures forall i :: 0 <= i < |t.rows| && DayIndexOf(t)[i].Num? ==>
      DayIndexOf(t)[i].x >= 0.0 && DayIndexOf(t)[i].x == DayIndexOf(t)[i].x.Floor as real
    ensures (exists i :: 0 <= i < |t.rows| && DayIndexOf(t)[i].Num?) ==>
      exists i :: 0 <= i < |t.rows| && DayIndexOf(t)[i] == Num(0.0)
    ensures DateColumn(t).None? ==> forall i :: 0 <= i < |t.rows| ==> DayIndexOf(t)[i] == Num(i as real)
    ensures DateColumn(t).Some? ==> forall i :: 0 <= i < |t.rows| ==>
      (DayIndexOf(t)[i].Num? <==> Cell(t.rows[i], DateColumn(t).value).Date?)
  {
    var r := DayIndexOf(t);
    match DateColumn(t)
    case Some(c) =>
      var dates := AsDates(ColumnValues(t, c));
      if exists i :: 0 <= i < |t.rows| && r[i].Num? {
        var i :| 0 <= i < |t.rows| && r[i].Num?;
        assert dates[i].Date?;
      }
    case None =>
      if |t.rows| > 0 {
        assert r[0] == Num(0.0);
      }
  }

  /** Renaming the target to `demand` keeps the date columns and Catagory, and moves the target's cells. */
  lemma RenamedTarget(t: Table)
    requires RenameKeepsLabels(t)
    ensures var df := RenameColumn(t, TargetColumn(t), "demand");
      |df.rows| == |t.rows|
      && (Has(df, "demand") <==> HasDemand(t))
      && DateColumn(df) == DateColumn(t)
      && (Has(df, "Catagory") <==> Has(t, "Catagory"))
      && (HasDemand(t) ==> ColumnValues(df, "demand") == ColumnValues(t, DemandColumn(t)))
      && (HasDemand(t) ==> KindOf(df.columns, "demand") == KindOf(t.columns, DemandColumn(t)))
      && (forall c :: c in DateColumns || c == "Catagory" ==> ColumnValues(df, c) == ColumnValues(t, c))
  {
    var target := TargetColumn(t);
    var df := RenameColumn(t, target, "demand");
    if HasTarget(t) {
      RenamedKind(t.columns, target, "demand");
    }
    assert forall c :: c in DateColumns ==> (Has(df, c) <==> Has(t, c));
    if HasTarget(t) {
      assert ColumnValues(df, "demand") == ColumnValues(t, target);
    }
    forall c | c in DateColumns || c == "Catagory" ensures ColumnValues(df, c) == ColumnValues(t, c) {
      if Has(t, target) {
        assert forall i :: 0 <= i < |t.rows| ==> ColumnValues(df, c)[i] == ColumnValues(t, c)[i];
      }
    }
  }

  /**
   * The dated half of the preparation: convert the date column to dates in place, and add
   * `day_index`, each row's whole days after the earliest date.
   */
  method AddDayIndex(df: Table, c: string) returns (r: Table)
    requires c in DateColumns
    ensures |r.rows| == |df.rows|
    ensures Has(r, "day_index") && KindOf(r.columns, "day_index") == Numeric
    ensures ColumnValues(r, "day_index") == DayOffsets(AsDates(ColumnValues(df, c)))
    ensures Has(r, "demand") <==> Has(df, "demand")
    ensures Has(r, "Catagory") <==> Has(df, "Catagory")
    ensures ColumnValues(r, "demand") == ColumnValues(df, "demand")
    ensures ColumnValues(r, "Catagory") == ColumnValues(df, "Catagory")
    ensures Has(df, "demand") ==> KindOf(r.columns, "demand") == KindOf(df.columns, "demand")
  {
    r := MapColumn(df, c, AsDate, DateTime);
    if Has(df, "demand") {
      KindAfterMap(df, c, AsDate, DateTime, "demand");
    }
    assert ColumnValues(r, c) == AsDates(ColumnValues(df, c));
    ColumnAfterMap(df, c, AsDate, DateTime, "demand");
    ColumnAfterMap(df, c, AsDate, DateTime, "Catagory");
    var offsets := DayOffsets(ColumnValues(r, c));
    var converted := r;
    r := SetColumn(r, "day_index", Numeric, offsets);
    SetColumnKind(converted, "day_index", Numeric, offsets);
    ColumnAfterSet(converted, "day_index", Numeric, offsets, "day_index");
    ColumnAfterSet(converted, "day_index", Numeric, offsets, "demand");
    ColumnAfterSet(converted, "day_index", Numeric, offsets, "Catagory");
    if Has(df, "demand") {
      KindAfterSet(converted, "day_index", Numeric, offsets, "demand");
    }
  }

  /**
   * The imperative preparation of the forecasting branch: rename the target to `demand`,
   * add `day_index` from the date column, choose the features, and fall back to the row index.
   */
  method PrepareForecast(t: Table) returns (df: Table, features: seq<string>)
    requires RenameKeepsLabels(t)
    ensures features == ModelFeatures(t)
    ensures |df.rows| == |t.rows|
    ensures forall c :: c in features ==> Has(df, c)
    ensures "day_index" in features ==> Has(df, "day_index")
    ensures "day_index" in features ==>
      KindOf(df.columns, "day_index") == Numeric && ColumnValues(df, "day_index") == DayIndexOf(t)
    ensures "Catagory" in features ==> ColumnValues(df, "Catagory") == ColumnValues(t, "Catagory")
    ensures Has(df, "demand") <==> HasDemand(t)
    ensures HasDemand(t) ==> ColumnValues(df, "demand") == ColumnValues(t, DemandColumn(t))
    ensures HasDemand(t) ==> KindOf(df.columns, "demand") == KindOf(t.columns, DemandColumn(t))
  {
    var target := TargetColumn(t);
    var renamed := RenameColumn(t, target, "demand");
    RenamedTarget(t);
    df, features := BuildFeatures(renamed);
    assert ModelFeatures(renamed) == ModelFeatures(t);
    if DateColumn(t).Some? {
      assert ColumnValues(renamed, DateColumn(t).value) == ColumnValues(t, DateColumn(t).value);
    }
    assert DayIndexOf(renamed) == DayIndexOf(t);
  }

  /**
   * The feature step of option 8 on the renamed table: day_index from the time column when
   * there is one, Catagory when present, and the row number as day_index when neither applies.
   */
  method BuildFeatures(df: Table) returns (r: Table, features: seq<string>)
    ensures features == ModelFeatures(df)
    ensures |r.rows| == |df.rows|
    ensures forall c :: c in features ==> Has(r, c)
    ensures "day_index" in features ==> Has(r, "day_index")
    ensures "day_index" in features ==>
      KindOf(r.columns, "day_index") == Numeric && ColumnValues(r, "day_index") == DayIndexOf(df)
    ensures "Catagory" in features ==> ColumnValues(r, "Catagory") == ColumnValues(df, "Catagory")
    ensures Has(r, "demand") <==> Has(df, "demand")
    ensures ColumnValues(r, "demand") == ColumnValues(df, "demand")
    ensures Has(df, "demand") ==> KindOf(r.columns, "demand") == KindOf(df.columns, "demand")
  {
    r := df;
    features := [];
    var dateCol := DateColumn(df);
    if dateCol.Some? {
      r := AddDayIndex(df, dateCol.value);
      features := features + ["day_index"];
    }
    if Has(r, "Catagory") {
      features := features + ["Catagory"];
    }
    if features == [] {
      r := AddRowIndex(r);
      features := ["day_index"];
    }
  }

  method AddRowIndex(df: Table) returns (r: Table)
    ensures |r.rows| == |df.rows|
    ensures Has(r, "day_index") && KindOf(r.columns, "day_index") == Numeric
    ensures ColumnValues(r, "day_index") == RowIndex(|df.rows|)
    ensures Has(r, "demand") <==> Has(df, "demand")
    ensures ColumnValues(r, "demand") == ColumnValues(df, "demand")
    ensures Has(df, "demand") ==> KindOf(r.columns, "demand") == KindOf(df.columns, "demand")
  {
    var index := RowIndex(|df.rows|);
    r := SetColumn(df, "day_index", Numeric, index);
    SetColumnKind(df, "day_index", Numeric, index);
    ColumnAfterSet(df, "day_index", Numeric, index, "day_index");
    ColumnAfterSet(df, "day_index", Numeric, index, "demand");
    if Has(df, "demand") {
      KindAfterSet(df, "day_index", Numeric, index, "demand");
    }
  }

  // ---------------------------------------------------------------------------
  // The future rows

  const FloatRange := "'numpy.float64' object cannot be interpreted as an integer"

  /** The largest whole part of a column of numbers. */
  function LargestFloor(vals: seq<Value>): (r: int)
    requires vals != [] && forall i :: 0 <= i < |vals| ==> vals[i].Num?
    ensures forall i :: 0 <= i < |vals| ==> vals[i].x.Floor <= r
    ensures exists i :: 0 <= i < |vals| && vals[i].x.Floor == r
  {
    if |vals| == 1 then vals[0].x.Floor
    else
      assert forall i :: 1 <= i < |vals| ==> vals[i] == vals[1..][i - 1];
      var rest := LargestFloor(vals[1..]);
      var j :| 0 <= j < |vals[1..]| && vals[1..][j].x.Floor == rest;
      assert vals[j + 1].x.Floor == rest;
      if vals[0].x.Floor >= rest then vals[0].x.Floor else rest
  }

  /**
   * `df['day_index'].max()` as `range` takes it: a column with a missing entry is float,
   * and so is the NaN maximum of an empty column, and `range` refuses a float.
   */
  function DayIndexMax(vals: seq<Value>): (r: Result<int>)
    ensures r.Err? <==> vals == [] || exists i :: 0 <= i < |vals| && !vals[i].Num?
    ensures r.Err? ==> r.error == TypeError(FloatRange)
    ensures r.Ok? ==> forall i :: 0 <= i < |vals| ==> vals[i].x.Floor <= r.value
    ensures r.Ok? ==> exists i :: 0 <= i < |vals| && vals[i].x.Floor == r.value
  {
    if vals == [] || exists i :: 0 <= i < |vals| && !vals[i].Num? then Err(TypeError(FloatRange))
    else Ok(LargestFloor(vals))
  }

  /** How many times `v` occurs. */
  function Count(vals: seq<Value>, v: Value): nat {
    multiset(vals)[v]
  }

  /** The entries that are not missing, in order (`mode` drops NaN). */
  function Present(vals: seq<Value>): (r: seq<Value>)
    ensures forall v :: v in r <==> v in vals && !v.Missing?
  {
    if vals == [] then []
    else
      assert forall v :: v in vals <==> v == vals[0] || v in vals[1..];
      (if vals[0].Missing? then [] else [vals[0]]) + Present(vals[1..])
  }

  /** The position of the first candidate occurring most often in `vals`. */
  function FirstMostFrequent(cands: seq<Value>, vals: seq<Value>): (j: nat)
    requires cands != []
    ensures j < |cands|
    ensures forall k :: 0 <= k < |cands| ==> Count(vals, cands[k]) <= Count(vals, cands[j])
    ensures forall k :: 0 <= k < j ==> Count(vals, cands[k]) < Count(vals, cands[j])
  {
    if |cands| == 1 then 0
    else
      var rest := FirstMostFrequent(cands[1..], vals) + 1;
      assert forall k :: 1 <= k < |cands| ==> cands[k] == cands[1..][k - 1];
      if Count(vals, cands[0]) >= Count(vals, cands[rest]) then 0 else rest
  }

  /**
   * `series.mode()[0]`: the most frequent present value, the smallest of several equally
   * frequent (pandas sorts the modes); a KeyError on the position 0 when nothing is present.
   */
  function Mode(vals: seq<Value>): (r: Result<Value>)
  {
    var cands := SortedDistinct(Present(vals));
    if cands == [] then Err(KeyError(["0"]))
    else Ok(cands[FirstMostFrequent(cands, vals)])
  }

  lemma ModeCorrect(vals: seq<Value>)
    ensures Mode(vals).Err? <==> forall i :: 0 <= i < |vals| ==> vals[i].Missing?
    ensures Mode(vals).Err? ==> Mode(vals).error == KeyError(["0"])
    ensures Mode(vals).Ok? ==> Mode(vals).value in vals && !Mode(vals).value.Missing?
    ensures Mode(vals).Ok? ==> forall v :: v in vals && !v.Missing? ==> Count(vals, v) <= Count(vals, Mode(vals).value)
    ensures Mode(vals).Ok? ==> forall v :: (v in vals && !v.Missing? && v != Mode(vals).value
      && Count(vals, v) == Count(vals, Mode(vals).value)) ==> Less(Mode(vals).value, v)
  {
    var present := Present(vals);
    var cands := SortedDistinct(present);
    SortedDistinctCorrect(present);
    if cands != [] {
      var j := FirstMostFrequent(cands, vals);
      var m := cands[j];
      assert m in present;
      forall v | v in vals && !v.Missing? && v != m && Count(vals, v) == Count(vals, m)
        ensures Less(m, v)
      {
        assert v in present;
        var k :| 0 <= k < |cands| && cands[k] == v;
        if k < j {
          assert false;
        }
        if k == j {
          assert false;
        }
      }
    }
  }

  /** The dtype pandas gives a column filled with one scalar. */
  function KindOfValue(v: Value): Kind {
    match v
    case Num(_) => Numeric
    case Date(_) => DateTime
    case _ => Object
  }

  const Horizon := 7

  /** `future_X`: seven rows with `day_index` from `last + 1` on, each with the category when given. */
  function FutureRows(last: int, category: Option<Value>): (r: Table)
    ensures |r.rows| == Horizon
    ensures Names(r.columns) == ["day_index"] + if category.Some? then ["Catagory"] else []
    ensures forall i :: 0 <= i < Horizon ==> Cell(r.rows[i], "day_index") == Num((last + 1 + i) as real)
    ensures category.Some? ==> forall i :: 0 <= i < Horizon ==> Cell(r.rows[i], "Catagory") == category.value
  {
    var cols := [Column("day_index", Numeric)] + if category.Some? then [Column("Catagory", KindOfValue(category.value))] else [];
    var rows := seq(Horizon, i requires 0 <= i < Horizon =>
      if category.Some? then map["day_index" := Num((last + 1 + i) as real), "Catagory" := category.value]
      else map["day_index" := Num((last + 1 + i) as real)]);
    Table(cols, rows)
  }

  /**
   * The rows forecast for, or the error building them raises, from the model's features, its
   * `day_index` column and its Catagory column: none when the model has no day index; else
   * the seven days after the largest day index, with the most frequent category when the
   * model uses Catagory.
   */
  function FutureFrom(features: seq<string>, dayIndex: seq<Value>, categories: seq<Value>): Result<Option<Table>> {
    if "day_index" !in features then Ok(None)
    else
      var last := DayIndexMax(dayIndex);
      if last.Err? then Err(last.error)
      else if "Catagory" in features then
        var m := Mode(categories);
        if m.Err? then Err(m.error) else Ok(Some(FutureRows(last.value, Some(m.value))))
      else Ok(Some(FutureRows(last.value, None)))
  }

  /** The future rows of the dataset `t`. */
  function FutureFrame(t: Table): Result<Option<Table>> {
    FutureFrom(ModelFeatures(t), DayIndexOf(t), ColumnValues(t, "Catagory"))
  }

  /** There are no future rows, and no error, exactly when the model has no day index. */
  lemma FutureFrameAbsent(t: Table)
    ensures FutureFrame(t).Ok? && FutureFrame(t).value.None? <==> DateColumn(t).None? && Has(t, "Catagory")
  {
  }

  /**
   * With a date column, building the future rows raises exactly when the table is empty, a
   * date is missing, or the model uses Catagory and every category is missing.
   */
  lemma FutureFrameErrors(t: Table)
    requires DateColumn(t).Some?
    ensures FutureFrame(t).Err? <==>
      |t.rows| == 0 || (exists i :: 0 <= i < |t.rows| && !Cell(t.rows[i], DateColumn(t).value).Date?)
        || (Has(t, "Catagory") && forall i :: 0 <= i < |t.rows| ==> Cell(t.rows[i], "Catagory").Missing?)
  {
    DayIndexBounds(t);
    var d := DayIndexOf(t);
    if Has(t, "Catagory") {
      ModeCorrect(ColumnValues(t, "Catagory"));
    }
    var c := DateColumn(t).value;
    assert (exists i :: 0 <= i < |t.rows| && !d[i].Num?) <==> exists i :: 0 <= i < |t.rows| && !Cell(t.rows[i], c).Date?;
  }

  /**
   * The future rows are seven consecutive days, each later than every training day, and carry
   * the most frequent category when the model uses Catagory.
   */
  lemma FutureFrameRows(t: Table)
    requires FutureFrame(t).Ok? && FutureFrame(t).value.Some?
    ensures var ft := FutureFrame(t).value.value;
      |ft.rows| == Horizon
      && (forall i :: 1 <= i < Horizon ==> Cell(ft.rows[i], "day_index").x == Cell(ft.rows[i - 1], "day_index").x + 1.0)
      && (forall i, j :: 0 <= i < Horizon && 0 <= j < |t.rows| ==> DayIndexOf(t)[j].x < Cell(ft.rows[i], "day_index").x)
      && (Has(ft, "Catagory") <==> Has(t, "Catagory"))
      && (Has(t, "Catagory") ==> forall i :: 0 <= i < Horizon ==> Cell(ft.rows[i], "Catagory") == Mode(ColumnValues(t, "Catagory")).value)
  {
    DayIndexBounds(t);
    var d := DayIndexOf(t);
    var last := DayIndexMax(d);
    forall j | 0 <= j < |t.rows| ensures d[j].x <= last.value as real {
      assert d[j].x == d[j].x.Floor as real;
    }
    var ft := FutureFrame(t).value.value;
    assert "day_index" in Names(ft.columns);
    assert Has(ft, "Catagory") <==> "Catagory" in ModelFeatures(t) by {
      if "Catagory" !in ModelFeatures(t) {
        assert Names(ft.columns) == ["day_index"];
      }
    }
  }

  // ---------------------------------------------------------------------------
  // The forecasting branch

  /** What the forecasting branch printed: the first error it raised, or its three reports. */
  datatype ForecastRun =
    | Failed(error: Error)
    | Completed(training: TrainReport, forecast: Option<seq<real>>, trend: Result<TrendReport>)

  /** Selecting named columns keeps each one's dtype, so the split of the selection is the split of the names. */
  lemma {:induction false} SelectedSplit(cols: seq<Column>, names: seq<string>)
    requires forall c :: c in names ==> c in Names(cols)
    ensures forall c :: c in CategoricalFeatures(ColumnsNamed(cols, names)) ==> c in names && KindOf(cols, c) != Numeric
    ensures forall c :: c in NumericFeatures(ColumnsNamed(cols, names)) ==> c in names
  {
    if names != [] {
      SelectedSplit(cols, names[1..]);
      var sel := ColumnsNamed(cols, names);
      assert sel[0] == Column(names[0], KindOf(cols, names[0]));
      assert sel[1..] == ColumnsNamed(cols, names[1..]);
    }
  }

  /** The selection `df[feature_columns]` the model is trained on, and how its columns split. */
  lemma ModelColumns(df: Table, features: seq<string>)
    requires features == ["day_index"] || features == ["Catagory"] || features == ["day_index", "Catagory"]
    requires forall c :: c in features ==> Has(df, c)
    requires "day_index" in features ==> Has(df, "day_index") && KindOf(df.columns, "day_index") == Numeric
    ensures Select(df, features).Ok? && WellFormed(Select(df, features).value)
      && var cols := Select(df, features).value.columns;
      (forall c :: c in NumericFeatures(cols) || c in CategoricalFeatures(cols) <==> c in features)
      && forall c :: c in CategoricalFeatures(cols) ==> c == "Catagory" && c in features
  {
    var cols := ColumnsNamed(df.columns, features);
    assert Select(df, features).value.columns == cols;
    assert Names(cols) == features;
    SelectedSplit(df.columns, features);
    SplitFeatures(cols);
  }

  /**
   * The first half of the forecasting branch: prepare the table, select the features and the
   * `demand` target, and train the shared forecaster on them.
   */
  method TrainOnPrepared(f: DemandForecaster, t: Table, learn: (Frame, seq<Value>) -> Fitted)
    returns (df: Table, features: seq<string>, report: Result<TrainReport>)
    requires f.Valid() && RenameKeepsLabels(t)
    modifies f
    ensures f.Valid()
    ensures features == ModelFeatures(t) && |df.rows| == |t.rows|
    ensures Select(df, features).Ok?
    ensures "day_index" in features ==> ColumnValues(df, "day_index") == DayIndexOf(t)
    ensures "Catagory" in features ==> ColumnValues(df, "Catagory") == ColumnValues(t, "Catagory")
    ensures HasDemand(t) ==> Has(df, "demand") && ColumnValues(df, "demand") == ColumnValues(t, DemandColumn(t))
    ensures HasDemand(t) ==> KindOf(df.columns, "demand") == KindOf(t.columns, DemandColumn(t))
    ensures !HasDemand(t) ==> report == Err(KeyError(["demand"])) && unchanged(f)
    ensures HasDemand(t) && |t.rows| == 0 ==> report == Err(ValueError(NoTrainingRows))
    ensures HasDemand(t) && |t.rows| == 1 ==> report == Err(ValueError(EmptyTrainSplit))
    ensures HasDemand(t) && |t.rows| >= 2 ==> report.Ok? && f.trained
    ensures HasDemand(t) && |t.rows| >= 2 ==>
      var x := Select(df, features).value;
      var fit := learn(EncodedFrame(x, CategoricalFeatures(x.columns), TrainedEncoder(x)), ColumnValues(df, "demand"));
      f.model == Some(fit.model)
      && f.featureColumns == FeatureColumnsOf(NumericFeatures(x.columns), TrainedEncoder(x))
      && report == Ok(TrainReport(fit.r2, fit.mae, FormatImportance(f.featureColumns, fit.model.importances)))
    ensures HasDemand(t) && |t.rows| >= 2 ==>
      forall c :: c in f.numericFeatures || c in f.categoricalFeatures <==> c in features
    ensures HasDemand(t) && |t.rows| >= 2 ==>
      forall c :: c in f.categoricalFeatures ==> c == "Catagory" && c in features
  {
    df, features := PrepareForecast(t);
    ModelColumns(df, features);
    var x := Select(df, features);
    if !Has(df, "demand") {
      return df, features, Err(KeyError(["demand"]));
    }
    var y := ColumnValues(df, "demand");
    report := f.Train(x.value, y, learn);
  }

  /**
   * The seven-day forecast on a model trained on the prepared features: build the future rows
   * (which may raise) and predict them. The prediction itself cannot fail, because the only
   * column the model can encode, Catagory, is given to every future row.
   */
  method ForecastWeek(f: DemandForecaster, features: seq<string>, dayIndex: seq<Value>, categories: seq<Value>)
    returns (res: Result<Option<seq<real>>>)
    requires f.Valid() && f.trained
    requires forall c :: c in f.categoricalFeatures ==> c == "Catagory" && c in features
    ensures FutureFrom(features, dayIndex, categories).Err? ==> res == Err(FutureFrom(features, dayIndex, categories).error)
    ensures FutureFrom(features, dayIndex, categories).Ok? ==>
      res.Ok? && (res.value.Some? <==> FutureFrom(features, dayIndex, categories).value.Some?)
    ensures res.Ok? && res.value.Some? ==>
      f.Predictions(FutureFrom(features, dayIndex, categories).value.value) == Ok(res.value.value)
      && |res.value.value| == Horizon
  {
    if "day_index" !in features {
      return Ok(None);
    }
    var last := DayIndexMax(dayIndex);
    if last.Err? {
      return Err(last.error);
    }
    var category: Option<Value> := None;
    if "Catagory" in features {
      var m := Mode(categories);
      if m.Err? {
        return Err(m.error);
      }
      category := Some(m.value);
    }
    var future := FutureRows(last.value, category);
    NoneMissing(future, f.categoricalFeatures);
    var predictions := f.ForecastFuture(future);
    res := Ok(Some(predictions.value));
  }

  /** The future rows depend on the day index and the categories only where the features use them. */
  lemma FutureFromAgrees(features: seq<string>, d1: seq<Value>, c1: seq<Value>, d2: seq<Value>, c2: seq<Value>)
    requires ("day_index" in features ==> d1 == d2) && ("Catagory" in features ==> c1 == c2)
    ensures FutureFrom(features, d1, c1) == FutureFrom(features, d2, c2)
  {
  }

  /**
   * The forecasting branch of the menu loop on the shared forecaster: prepare the table,
   * train on it, forecast the seven following days, and detect the trend of the demand.
   * A failed training, day index or category raises out of the branch; the trend is not
   * reached then.
   */
  method ForecastDemand(f: DemandForecaster, t: Table, learn: (Frame, seq<Value>) -> Fitted,
                        parse: string -> Option<real>)
    returns (run: ForecastRun, ghost prepared: Table)
    requires f.Valid() && RenameKeepsLabels(t)
    modifies f
    ensures f.Valid()
    ensures !HasDemand(t) ==> run == Failed(KeyError(["demand"])) && unchanged(f)
    ensures HasDemand(t) && |t.rows| == 0 ==> run == Failed(ValueError(NoTrainingRows))
    ensures HasDemand(t) && |t.rows| == 1 ==> run == Failed(ValueError(EmptyTrainSplit))
    ensures HasDemand(t) && |t.rows| >= 2 ==> f.trained
    ensures HasDemand(t) && |t.rows| >= 2 ==>
      forall c :: c in f.numericFeatures || c in f.categoricalFeatures <==> c in ModelFeatures(t)
    ensures HasDemand(t) && |t.rows| >= 2 ==> "day_index" !in f.categoricalFeatures
    ensures HasDemand(t) && |t.rows| >= 2 ==> (run.Completed? <==> FutureFrame(t).Ok?)
    ensures HasDemand(t) && |t.rows| >= 2 && run.Failed? ==> run.error == FutureFrame(t).error
    ensures run.Completed? ==>
      f.model.Some? && run.training.featureImportance == FormatImportance(f.featureColumns, f.model.value.importances)
    ensures run.Completed? ==>
      Select(prepared, ModelFeatures(t)).Ok? && |prepared.rows| == |t.rows|
      && ("day_index" in ModelFeatures(t) ==> ColumnValues(prepared, "day_index") == DayIndexOf(t))
      && ("Catagory" in ModelFeatures(t) ==> ColumnValues(prepared, "Catagory") == ColumnValues(t, "Catagory"))
    ensures run.Completed? ==>
      var x := Select(prepared, ModelFeatures(t)).value;
      var fit := learn(EncodedFrame(x, CategoricalFeatures(x.columns), TrainedEncoder(x)), ColumnValues(t, DemandColumn(t)));
      f.model == Some(fit.model)
      && run.training == TrainReport(fit.r2, fit.mae, FormatImportance(f.featureColumns, fit.model.importances))
    ensures run.Completed? ==> run.trend == DetectTrend(t, DemandColumn(t), 5, parse)
    ensures run.Completed? ==> (run.forecast.Some? <==> FutureFrame(t).value.Some?)
    ensures run.Completed? && run.forecast.Some? ==>
      f.Predictions(FutureFrame(t).value.value) == Ok(run.forecast.value) && |run.forecast.value| == Horizon
  {
    var df, features, report := TrainOnPrepared(f, t, learn);
    prepared := df;
    if report.Err? {
      return Failed(report.error), prepared;
    }
    var dayIndex := ColumnValues(df, "day_index");
    var categories := ColumnValues(df, "Catagory");
    FutureFromAgrees(features, dayIndex, categories, DayIndexOf(t), ColumnValues(t, "Catagory"));
    var forecast := ForecastWeek(f, features, dayIndex, categories);
    if forecast.Err? {
      return Failed(forecast.error), prepared;
    }
    SameColumnSameTrend(df, "demand", t, DemandColumn(t), 5, parse);
    var trend := DetectTrend(df, "demand", 5, parse);
    run := Completed(report.value, forecast.value, trend);
  }

  /**
   * The retry at the forecasting error drops Catagory from the future rows; had it run on a
   * model that encodes Catagory, prediction would raise a KeyError naming it.
   */
  lemma RetryWithoutCategoryFails(f: DemandForecaster, x: Table)
    requires f.Valid() && f.trained && "Catagory" in f.categoricalFeatures && !Has(x, "Catagory")
    ensures f.Predictions(x).Err? && f.Predictions(x).error.KeyError?
    ensures "Catagory" in f.Predictions(x).error.keys
  {
  }
}
