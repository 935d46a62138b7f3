/**
 * The inventory analyzer: low-stock and expiry selections, the column choice and error order
 * of the seasonal analysis, and the turnover column it writes into the shared table.
 */
module InventoryAnalysis {
  import opened Wrappers
  import opened Values
  import opened Tables

  // ---------------------------------------------------------------------------
  // Low stock

  /**
   * `stock / sales * 30 <= threshold` as floating point decides it. A zero sales figure gives
   * +inf, -inf or NaN, and of those only -inf (negative stock) passes the comparison.
   */
  predicate StockoutWithin(stock: Value, sales: Value, threshold: real) {
    stock.Num? && sales.Num? &&
    if sales.x != 0.0 then stock.x / sales.x * 30.0 <= threshold else stock.x < 0.0
  }

  /** The days_until_stockout cell, `stock / sales * 30`; the infinite and NaN quotients read as missing. */
  function DaysUntilStockout(stock: Value, sales: Value): (r: Value)
    ensures r.Num? <==> stock.Num? && sales.Num? && sales.x != 0.0
    ensures r.Num? ==> r.x * sales.x == 30.0 * stock.x
  {
    Times(Ratio(stock, sales), Num(30.0))
  }

  /** Where the stockout estimate is finite, the selection is exactly a bound on it. */
  lemma StockoutWithinDays(stock: Value, sales: Value, threshold: real)
    requires DaysUntilStockout(stock, sales).Num?
    ensures StockoutWithin(stock, sales, threshold) <==> DaysUntilStockout(stock, sales).x <= threshold
  {
  }

  /** The level test: stock at or below Reorder_Level, or at most 10 when that column is absent. */
  predicate LowByLevel(t: Table, row: Row) {
    if Has(t, "Reorder_Level") then AtMost(Cell(row, "Stock_Quantity"), Cell(row, "Reorder_Level"))
    else AtMost(Cell(row, "Stock_Quantity"), Num(10.0))
  }

  /** The Status test: passes every row when there is no Status column. */
  predicate ActiveIfStatus(t: Table, row: Row) {
    !Has(t, "Status") || Cell(row, "Status") == Text("Active")
  }

  /**
   * The rows `get_low_stock_items` reports. When Sales_Volume exists the stockout test is
   * computed over the whole table and replaces the level test rather than narrowing it.
   */
  predicate LowStock(t: Table, threshold: real, row: Row) {
    (if Has(t, "Sales_Volume") then StockoutWithin(Cell(row, "Stock_Quantity"), Cell(row, "Sales_Volume"), threshold)
     else LowByLevel(t, row))
    && ActiveIfStatus(t, row)
  }

  /** The copy the selection works on: with a days_until_stockout column when Sales_Volume exists. */
  function StockoutFrame(t: Table): (r: Table)
    ensures |r.rows| == |t.rows|
    ensures forall c :: Has(t, c) ==> Has(r, c)
    ensures Has(r, "days_until_stockout") <==> Has(t, "days_until_stockout") || Has(t, "Sales_Volume")
    ensures forall c :: Has(r, c) ==> Has(t, c) || c == "days_until_stockout"
    ensures forall i, c :: 0 <= i < |t.rows| && c != "days_until_stockout" ==> Cell(r.rows[i], c) == Cell(t.rows[i], c)
  {
    if Has(t, "Sales_Volume") then
      SetColumn(t, "days_until_stockout", Numeric,
        seq(|t.rows|, i requires 0 <= i < |t.rows| =>
          DaysUntilStockout(Cell(t.rows[i], "Stock_Quantity"), Cell(t.rows[i], "Sales_Volume"))))
    else t
  }

  /** Every column the low-stock report can have, in the order it appends them. */
  const LowStockOrder: seq<string> :=
    ["Product_Name", "Stock_Quantity", "Catagory", "Supplier_Name", "Reorder_Level", "days_until_stockout"]

  /**
   * The reported columns: Product_Name, Stock_Quantity, then the optional ones, all in the
   * order of `LowStockOrder` (which of them appear is `LowStockOptional`).
   */
  function LowStockColumns(t: Table): (r: seq<string>)
    ensures |r| >= 2 && r[0] == "Product_Name" && r[1] == "Stock_Quantity" && "Product_Name" !in r[1..]
    ensures Subsequence(r, LowStockOrder)
  {
    var a := AppendIf(t, "Catagory", "Catagory");
    var b := AppendIf(t, "Supplier_Name", "Supplier_Name");
    var c := AppendIf(t, "Reorder_Level", "Reorder_Level");
    var d := AppendIf(t, "Sales_Volume", "days_until_stockout");
    ReportedNamesDistinct();
    AfterFirst("Product_Name", "Stock_Quantity", a, b, c, d);
    InOrder("Product_Name", "Stock_Quantity", a, b, c, d, "Catagory", "Supplier_Name", "Reorder_Level", "days_until_stockout");
    ["Product_Name", "Stock_Quantity"] + a + b + c + d
  }

  /** Two fixed names, then four that each appear or not, keep the order of the six names. */
  lemma InOrder(x: string, y: string, a: seq<string>, b: seq<string>, c: seq<string>, d: seq<string>,
                na: string, nb: string, nc: string, nd: string)
    requires (a == [] || a == [na]) && (b == [] || b == [nb]) && (c == [] || c == [nc]) && (d == [] || d == [nd])
    ensures Subsequence([x, y] + a + b + c + d, [x, y, na, nb, nc, nd])
  {
    assert Subsequence(d, [nd]) by {
      OptionalThen(d, nd, [], []);
      assert d + [] == d && [nd] + [] == [nd];
    }
    OptionalThen(c, nc, d, [nd]);
    var s3, t3 := c + d, [nc] + [nd];
    OptionalThen(b, nb, s3, t3);
    var s2, t2 := b + s3, [nb] + t3;
    OptionalThen(a, na, s2, t2);
    var s1, t1 := a + s2, [na] + t2;
    FixedThen(x, y, s1, t1);
    AppendAssoc([x, y] + a + b, c, d);
    AppendAssoc([x, y] + a, b, c + d);
    AppendAssoc([x, y], a, b + (c + d));
    assert [x, y] + t1 == [x, y, na, nb, nc, nd];
  }

  lemma AppendAssoc(p: seq<string>, q: seq<string>, r: seq<string>)
    ensures p + q + r == p + (q + r)
  {
  }

  /** The six reported column names differ pairwise. */
  lemma ReportedNamesDistinct()
    ensures "Product_Name" != "Stock_Quantity" && "Product_Name" != "Catagory" && "Product_Name" != "Supplier_Name"
    ensures "Product_Name" != "Reorder_Level" && "Product_Name" != "days_until_stockout" && "Stock_Quantity" != "Catagory"
    ensures "Stock_Quantity" != "Supplier_Name" && "Stock_Quantity" != "Reorder_Level" && "Stock_Quantity" != "days_until_stockout"
    ensures "Catagory" != "Supplier_Name" && "Catagory" != "Reorder_Level" && "Catagory" != "days_until_stockout"
    ensures "Supplier_Name" != "Reorder_Level" && "Supplier_Name" != "days_until_stockout" && "Reorder_Level" != "days_until_stockout"
  {
  }

  /** Each optional column is reported exactly when its condition holds, and nothing else is. */
  lemma LowStockOptional(t: Table)
    ensures "Catagory" in LowStockColumns(t) <==> Has(t, "Catagory")
    ensures "Supplier_Name" in LowStockColumns(t) <==> Has(t, "Supplier_Name")
    ensures "Reorder_Level" in LowStockColumns(t) <==> Has(t, "Reorder_Level")
    ensures "days_until_stockout" in LowStockColumns(t) <==> Has(t, "Sales_Volume")
    ensures forall c :: c in LowStockColumns(t) ==> c in ["Product_Name", "Stock_Quantity", "Catagory",
      "Supplier_Name", "Reorder_Level", "days_until_stockout"]
  {
    var a := AppendIf(t, "Catagory", "Catagory");
    var b := AppendIf(t, "Supplier_Name", "Supplier_Name");
    var c := AppendIf(t, "Reorder_Level", "Reorder_Level");
    var d := AppendIf(t, "Sales_Volume", "days_until_stockout");
    ReportedNamesDistinct();
    AfterFirst("Product_Name", "Stock_Quantity", a, b, c, d);
  }

  /** The shape of the reported columns: two fixed names, then four optional parts. */
  lemma AfterFirst(x: string, y: string, a: seq<string>, b: seq<string>, c: seq<string>, d: seq<string>)
    requires x != y && x !in a && x !in b && x !in c && x !in d
    ensures ([x, y] + a + b + c + d)[1..] == [y] + a + b + c + d
    ensures x !in ([x, y] + a + b + c + d)[1..]
    ensures forall z :: z in [x, y] + a + b + c + d <==> z == x || z == y || z in a || z in b || z in c || z in d
  {
    assert ([x, y] + a + b + c + d)[1..] == [y] + (a + b + c + d);
  }

  /** `[name]` when column `c` exists, else nothing: one conditional `result_cols.append`. */
  function AppendIf(t: Table, c: string, name: string): (r: seq<string>)
    ensures forall x :: x in r <==> Has(t, c) && x == name
    ensures |r| <= 1
  {
    if Has(t, c) then [name] else []
  }

  /** The selected rows of the working copy, in table order, before projection. */
  function LowStockRows(t: Table, threshold: real): (r: seq<Row>)
  {
    Where(StockoutFrame(t).rows, row => LowStock(t, threshold, row))
  }

  /** `get_low_stock_items` as a value: ValueError without stock, else the projection of the selected rows. */
  function LowStockItems(t: Table, threshold: real): (r: Result<Table>)
  {
    if !Has(t, "Stock_Quantity") then Err(ValueError("Missing required 'Stock_Quantity' column"))
    else Select(Table(StockoutFrame(t).columns, LowStockRows(t, threshold)), LowStockColumns(t))
  }

  /** Every reported column but Product_Name is bound to exist in the working copy. */
  lemma LowStockColumnsPresent(t: Table, c: string)
    requires Has(t, "Stock_Quantity")
    requires c in LowStockColumns(t) && c != "Product_Name"
    ensures Has(StockoutFrame(t), c)
  {
    LowStockOptional(t);
  }

  /** The two errors: ValueError exactly without Stock_Quantity, and otherwise KeyError exactly without Product_Name. */
  lemma LowStockErrors(t: Table, threshold: real)
    ensures LowStockItems(t, threshold).Err? <==> !Has(t, "Stock_Quantity") || !Has(t, "Product_Name")
    ensures Has(t, "Stock_Quantity") && !Has(t, "Product_Name") ==>
      LowStockItems(t, threshold) == Err(KeyError(["Product_Name"]))
  {
    if Has(t, "Stock_Quantity") {
      var f := Table(StockoutFrame(t).columns, LowStockRows(t, threshold));
      var cols := LowStockColumns(t);
      assert Has(f, "Product_Name") <==> Has(t, "Product_Name");
      forall c | c in cols[1..] ensures Has(f, c) {
        assert c in cols;
        LowStockColumnsPresent(t, c);
      }
      MissingOnlyFirst(f, cols);
    }
  }

  /** With both required columns, the report has the listed columns and one projected row per selected row, in order. */
  lemma LowStockResult(t: Table, threshold: real)
    requires Has(t, "Stock_Quantity") && Has(t, "Product_Name")
    ensures LowStockItems(t, threshold).Ok?
    ensures var r := LowStockItems(t, threshold).value;
      Names(r.columns) == LowStockColumns(t) && |r.rows| == |LowStockRows(t, threshold)|
      && forall i :: 0 <= i < |r.rows| ==> r.rows[i] == Restrict(LowStockRows(t, threshold)[i], LowStockColumns(t))
  {
    LowStockErrors(t, threshold);
  }

  /** The selected rows are the rows of the table passing the test, each as often as it occurs there. */
  lemma LowStockRowsCount(t: Table, threshold: real, x: Row)
    ensures multiset(LowStockRows(t, threshold))[x] ==
      if LowStock(t, threshold, x) then multiset(StockoutFrame(t).rows)[x] else 0
  {
    WhereCount(StockoutFrame(t).rows, row => LowStock(t, threshold, row), x);
  }

  /**
   * With Sales_Volume present, a row at or below its Reorder_Level is not reported unless its
   * stockout estimate is within the threshold: the level test is discarded, not combined.
   */
  lemma SalesTestReplacesLevelTest(t: Table, threshold: real, row: Row)
    requires Has(t, "Sales_Volume") && Has(t, "Reorder_Level")
    requires AtMost(Cell(row, "Stock_Quantity"), Cell(row, "Reorder_Level"))
    requires !StockoutWithin(Cell(row, "Stock_Quantity"), Cell(row, "Sales_Volume"), threshold)
    ensures !LowStock(t, threshold, row)
  {
  }

  /** A concrete instance: 5 in stock against a level of 10, selling 1 per month, is 150 days from stockout and not reported. */
  lemma LowStockQuirkExample(t: Table)
    requires Has(t, "Sales_Volume") && Has(t, "Reorder_Level")
    ensures var row := map["Stock_Quantity" := Num(5.0), "Reorder_Level" := Num(10.0), "Sales_Volume" := Num(1.0)];
      LowByLevel(t, row) && !LowStock(t, 7.0, row)
  {
    var row := map["Stock_Quantity" := Num(5.0), "Reorder_Level" := Num(10.0), "Sales_Volume" := Num(1.0)];
    assert Cell(row, "Stock_Quantity") == Num(5.0);
    assert Cell(row, "Reorder_Level") == Num(10.0);
    assert Cell(row, "Sales_Volume") == Num(1.0);
  }

  // ---------------------------------------------------------------------------
  // Expiry

  /** `today <= Expiration_Date <= today + days`, both ends inclusive; a missing date never passes. `now` is in days. */
  predicate ExpiresWithin(v: Value, now: real, days: int) {
    v.Date? && now <= v.day as real <= now + days as real
  }

  /** Every column the expiry report can have, in the order it appends them. */
  const ExpiringOrder: seq<string> := ["Product_Name", "Expiration_Date", "Catagory", "Stock_Quantity"]

  /** The expiry report's columns: the two fixed ones, then Catagory and Stock_Quantity when present, in that order. */
  function ExpiringColumns(t: Table): (r: seq<string>)
    ensures |r| >= 2 && r[0] == "Product_Name" && r[1] == "Expiration_Date"
    ensures "Catagory" in r <==> Has(t, "Catagory")
    ensures "Stock_Quantity" in r <==> Has(t, "Stock_Quantity")
    ensures Subsequence(r, ExpiringOrder)
    ensures forall c :: c in r ==> c in ExpiringOrder
  {
    var a := AppendIf(t, "Catagory", "Catagory");
    var b := AppendIf(t, "Stock_Quantity", "Stock_Quantity");
    OptionalThen(b, "Stock_Quantity", [], []);
    assert b + [] == b;
    OptionalThen(a, "Catagory", b, ["Stock_Quantity"]);
    FixedThen("Product_Name", "Expiration_Date", a + b, ["Catagory", "Stock_Quantity"]);
    assert ["Product_Name", "Expiration_Date"] + (a + b) == ["Product_Name", "Expiration_Date"] + a + b;
    assert ["Product_Name", "Expiration_Date"] + (["Catagory"] + ["Stock_Quantity"]) == ExpiringOrder;
    SubsequenceMembers(["Product_Name", "Expiration_Date"] + a + b, ExpiringOrder);
    ["Product_Name", "Expiration_Date"] + a + b
  }

  datatype Period = Weekly | Monthly

  /** What `analyze_seasonal_turnover` groups by: the chosen date column's periods, plus Catagory when present. */
  datatype SeasonPlan = SeasonPlan(dateColumn: string, period: Period, groupColumns: seq<string>)

  /** The candidate date columns, in the order they are tried. */
  const SeasonDateColumns: seq<string> := ["Date_Received", "Last_Order_Date", "Expiration_Date"]

  predicate IsDateColumn(t: Table, c: string) {
    Has(t, c) && KindOf(t.columns, c) == DateTime
  }

  /** The turnover column `analyze_turnover` summarises, and the column it groups by. */
  datatype TurnoverPlan = TurnoverPlan(column: string, groupBy: Option<string>)

  /**
   * `df['Sales_Volume'] / df['Stock_Quantity']`, row by row: a rate exists exactly for numeric
   * sales over a non-zero numeric stock, and then rate times stock is the sales figure.
   */
  function TurnoverRates(t: Table): (r: seq<Value>)
    ensures |r| == |t.rows|
    ensures forall i :: 0 <= i < |t.rows| ==> r[i] == Ratio(Cell(t.rows[i], "Sales_Volume"), Cell(t.rows[i], "Stock_Quantity"))
    ensures forall i :: 0 <= i < |t.rows| ==> (r[i].Num? <==>
      Cell(t.rows[i], "Sales_Volume").Num? && Cell(t.rows[i], "Stock_Quantity").Num? && Cell(t.rows[i], "Stock_Quantity").x != 0.0)
    ensures forall i :: 0 <= i < |t.rows| && r[i].Num? ==>
      r[i].x * Cell(t.rows[i], "Stock_Quantity").x == Cell(t.rows[i], "Sales_Volume").x
  {
    seq(|t.rows|, i requires 0 <= i < |t.rows| => Ratio(Cell(t.rows[i], "Sales_Volume"), Cell(t.rows[i], "Stock_Quantity")))
  }

  /** The table after `analyze_turnover`'s column step: unchanged, extended with sales/stock, or an error. */
  function WithTurnover(t: Table): (r: Result<Table>)
    ensures r.Err? <==> !Has(t, "Inventory_Turnover_Rate") && !(Has(t, "Sales_Volume") && Has(t, "Stock_Quantity"))
    ensures r.Ok? ==> Has(r.value, "Inventory_Turnover_Rate") && |r.value.rows| == |t.rows|
    ensures Has(t, "Inventory_Turnover_Rate") ==> r == Ok(t)
  {
    if Has(t, "Inventory_Turnover_Rate") then Ok(t)
    else if Has(t, "Sales_Volume") && Has(t, "Stock_Quantity") then
      Ok(SetColumn(t, "Inventory_Turnover_Rate", Numeric, TurnoverRates(t)))
    else Err(ValueError("Insufficient data to calculate turnover rates"))
  }

  /** A written rate is sales over stock wherever that quotient is finite, and every other column is kept. */
  lemma WithTurnoverRates(t: Table, i: nat)
    requires !Has(t, "Inventory_Turnover_Rate") && Has(t, "Sales_Volume") && Has(t, "Stock_Quantity")
    requires i < |t.rows|
    ensures var r := WithTurnover(t).value;
      var sales := Cell(t.rows[i], "Sales_Volume");
      var stock := Cell(t.rows[i], "Stock_Quantity");
      Names(r.columns) == Names(t.columns) + ["Inventory_Turnover_Rate"]
      && Cell(r.rows[i], "Inventory_Turnover_Rate") == Ratio(sales, stock)
      && (Cell(r.rows[i], "Inventory_Turnover_Rate").Num? <==> sales.Num? && stock.Num? && stock.x != 0.0)
      && forall c :: c != "Inventory_Turnover_Rate" ==> Cell(r.rows[i], c) == Cell(t.rows[i], c)
  {
    var rates := TurnoverRates(t);
    assert WithTurnover(t).value == SetColumn(t, "Inventory_Turnover_Rate", Numeric, rates);
    SetColumnRow(t, "Inventory_Turnover_Rate", Numeric, rates, i);
    assert rates[i] == Ratio(Cell(t.rows[i], "Sales_Volume"), Cell(t.rows[i], "Stock_Quantity"));
  }

  /** Running the column step again changes nothing: the second run finds the column. */
  lemma WithTurnoverIdempotent(t: Table)
    requires WithTurnover(t).Ok?
    ensures WithTurnover(WithTurnover(t).value) == WithTurnover(t)
  {
  }

  /** The analyzer object; it shares its dataframe with the other components that were given it. */
  class InventoryAnalyzer {
    var df: DataFrame

    constructor (d: DataFrame)
      ensures df == d
    {
      df := d;
    }

    /** `get_low_stock_items`, step by step: result columns appended as their conditions hold, the selection reassigned. */
    method GetLowStockItems(thresholdDays: real) returns (res: Result<Table>)
      ensures res == LowStockItems(df.table, thresholdDays)
    {
      var t0 := df.table;
      var t := t0;
      if !Has(t, "Stock_Quantity") {
        return Err(ValueError("Missing required 'Stock_Quantity' column"));
      }
      var resultCols := ["Product_Name", "Stock_Quantity"];
      if Has(t, "Catagory") {
        resultCols := resultCols + ["Catagory"];
      }
      assert resultCols == ["Product_Name", "Stock_Quantity"] + AppendIf(t0, "Catagory", "Catagory");
      ghost var cols2 := resultCols;
      if Has(t, "Supplier_Name") {
        resultCols := resultCols + ["Supplier_Name"];
      }
      assert resultCols == cols2 + AppendIf(t0, "Supplier_Name", "Supplier_Name");
      ghost var cols3 := resultCols;
      var levelTest := row => LowByLevel(t0, row);
      var lowStock := Where(t.rows, levelTest);
      if Has(t, "Reorder_Level") {
        resultCols := resultCols + ["Reorder_Level"];
      }
      assert resultCols == cols3 + AppendIf(t0, "Reorder_Level", "Reorder_Level");
      ghost var cols4 := resultCols;
      var salesTest := row => StockoutWithin(Cell(row, "Stock_Quantity"), Cell(row, "Sales_Volume"), thresholdDays);
      if Has(t, "Sales_Volume") {
        t := StockoutFrame(t0);
        lowStock := Where(t.rows, salesTest);
        resultCols := resultCols + ["days_until_stockout"];
      }
      assert resultCols == cols4 + AppendIf(t0, "Sales_Volume", "days_until_stockout");
      assert resultCols == LowStockColumns(t0);
      assert Has(t, "Status") <==> Has(t0, "Status");
      var statusTest := row => ActiveIfStatus(t0, row);
      var keep := row => LowStock(t0, thresholdDays, row);
      if Has(t, "Status") {
        if Has(t0, "Sales_Volume") {
          WhereThenWhere(t.rows, salesTest, statusTest, keep);
        } else {
          WhereThenWhere(t.rows, levelTest, statusTest, keep);
        }
        lowStock := Where(lowStock, statusTest);
      } else if Has(t0, "Sales_Volume") {
        WhereSame(t.rows, salesTest, keep);
      } else {
        WhereSame(t.rows, levelTest, keep);
      }
      assert t == StockoutFrame(t0) && lowStock == LowStockRows(t0, thresholdDays);
      res := Select(Table(t.columns, lowStock), resultCols);
    }

    /** `get_expiring_soon` with the current time `now` (in days) as a parameter. */
    function GetExpiringSoon(now: real, days: int): (r: Result<Table>)
      reads this, df
      ensures !Has(df.table, "Expiration_Date") ==> r == Err(ValueError("Data is missing required 'Expiration_Date' column"))
      ensures Has(df.table, "Expiration_Date") ==> (r.Err? <==> !Has(df.table, "Product_Name"))
      ensures r.Ok? ==> Names(r.value.columns) == ExpiringColumns(df.table) && |r.value.rows| == |Expiring(now, days)|
      ensures r.Ok? ==> forall i :: 0 <= i < |r.value.rows| ==>
        r.value.rows[i] == Restrict(Expiring(now, days)[i], ExpiringColumns(df.table))
    {
      var t := df.table;
      if !Has(t, "Expiration_Date") then Err(ValueError("Data is missing required 'Expiration_Date' column"))
      else
        var cols := ExpiringColumns(t);
        assert cols == ["Product_Name"] + cols[1..];
        assert forall c :: c in cols[1..] ==> Has(t, c);
        Select(Table(t.columns, Expiring(now, days)), cols)
    }

    /** The rows expiring inside the window, in table order. */
    function Expiring(now: real, days: int): (r: seq<Row>)
      reads this, df
    {
      Where(df.table.rows, row => ExpiresWithin(Cell(row, "Expiration_Date"), now, days))
    }

    /** The window is inclusive at both ends, and a row is kept with all its occurrences exactly when inside it. */
    lemma ExpiringCount(now: real, days: int, x: Row)
      ensures multiset(Expiring(now, days))[x] ==
        if ExpiresWithin(Cell(x, "Expiration_Date"), now, days) then multiset(df.table.rows)[x] else 0
    {
      WhereCount(df.table.rows, row => ExpiresWithin(Cell(row, "Expiration_Date"), now, days), x);
    }

    /**
     * `analyze_seasonal_turnover` up to its grouping: the first present date-typed column among
     * the candidates, then the checks in order (no date column, no Sales_Volume, bad choice).
     */
    method AnalyzeSeasonalTurnover(seasonChoice: string) returns (res: Result<SeasonPlan>)
      ensures (forall c :: c in SeasonDateColumns ==> !IsDateColumn(df.table, c)) ==>
        res == Err(ValueError("No suitable date column found in the data"))
      ensures (exists c :: c in SeasonDateColumns && IsDateColumn(df.table, c)) && !Has(df.table, "Sales_Volume") ==>
        res == Err(ValueError("Data is missing required 'Sales_Volume' column"))
      ensures ((exists c :: c in SeasonDateColumns && IsDateColumn(df.table, c)) && Has(df.table, "Sales_Volume")
               && seasonChoice != "1" && seasonChoice != "2") ==>
        res == Err(ValueError("Invalid season choice. Choose 1 (Weekly) or 2 (Monthly)"))
      ensures res.Ok? <==> (exists c :: c in SeasonDateColumns && IsDateColumn(df.table, c))
                           && Has(df.table, "Sales_Volume") && (seasonChoice == "1" || seasonChoice == "2")
      ensures res.Ok? ==> res.value.period == (if seasonChoice == "1" then Weekly else Monthly)
      ensures res.Ok? ==> exists k :: (0 <= k < |SeasonDateColumns| && res.value.dateColumn == SeasonDateColumns[k]
                                     && IsDateColumn(df.table, SeasonDateColumns[k])
                                     && forall j :: 0 <= j < k ==> !IsDateColumn(df.table, SeasonDateColumns[j]))
      ensures res.Ok? ==> res.value.groupColumns == ["Season"] + (if Has(df.table, "Catagory") then ["Catagory"] else [])
    {
      var t := df.table;
      var dateCol: Option<string> := None;
      var k := 0;
      while k < |SeasonDateColumns|
        invariant 0 <= k <= |SeasonDateColumns|
        invariant dateCol.None?
        invariant forall j :: 0 <= j < k ==> !IsDateColumn(t, SeasonDateColumns[j])
      {
        var col := SeasonDateColumns[k];
        if IsDateColumn(t, col) {
          dateCol := Some(col);
          break;
        }
        k := k + 1;
      }
      if dateCol.None? {
        forall c | c in SeasonDateColumns ensures !IsDateColumn(t, c) {
          var j :| 0 <= j < |SeasonDateColumns| && SeasonDateColumns[j] == c;
        }
        return Err(ValueError("No suitable date column found in the data"));
      }
      if !Has(t, "Sales_Volume") {
        return Err(ValueError("Data is missing required 'Sales_Volume' column"));
      }
      var period;
      if seasonChoice == "1" {
        period := Weekly;
      } else if seasonChoice == "2" {
        period := Monthly;
      } else {
        return Err(ValueError("Invalid season choice. Choose 1 (Weekly) or 2 (Monthly)"));
      }
      var groupCols := ["Season"];
      if Has(t, "Catagory") {
        groupCols := groupCols + ["Catagory"];
      }
      res := Ok(SeasonPlan(dateCol.value, period, groupCols));
    }

    /**
     * `analyze_turnover` up to its statistics: it reuses an existing Inventory_Turnover_Rate, or
     * writes sales/stock into the shared table, or raises; it groups by Catagory when present.
     */
    method AnalyzeTurnover() returns (res: Result<TurnoverPlan>)
      modifies df
      ensures WithTurnover(old(df.table)).Ok? ==> df.table == WithTurnover(old(df.table)).value
      ensures WithTurnover(old(df.table)).Err? ==> df.table == old(df.table)
      ensures res.Err? <==> WithTurnover(old(df.table)).Err?
      ensures res.Err? ==> res.error == WithTurnover(old(df.table)).error
      ensures res.Ok? ==> res.value == TurnoverPlan("Inventory_Turnover_Rate",
        if Has(df.table, "Catagory") then Some("Catagory") else None)
    {
      var t := df.table;
      if Has(t, "Inventory_Turnover_Rate") {
      } else if Has(t, "Sales_Volume") && Has(t, "Stock_Quantity") {
        df.table := SetColumn(t, "Inventory_Turnover_Rate", Numeric,
          seq(|t.rows|, i requires 0 <= i < |t.rows| =>
            Ratio(Cell(t.rows[i], "Sales_Volume"), Cell(t.rows[i], "Stock_Quantity"))));
      } else {
        return Err(ValueError("Insufficient data to calculate turnover rates"));
      }
      var group := if Has(df.table, "Catagory") then Some("Catagory") else None;
      res := Ok(TurnoverPlan("Inventory_Turnover_Rate", group));
    }
  }
}
