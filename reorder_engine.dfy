/**
 * The reorder engine: the reorder list with its suggested quantities, the per-product demand
 * estimate, and the seasonal reorder suggestions.
 */
module Reorder {
  import opened Wrappers
  import opened Values
  import opened Tables

  // ---------------------------------------------------------------------------
  // Reorder list

  /** A row to reorder: stock at or below its level, and Active. */
  predicate NeedsReorder(row: Row) {
    AtMost(Cell(row, "Stock_Quantity"), Cell(row, "Reorder_Level")) && Cell(row, "Status") == Text("Active")
  }

  /** Python's `max(10, v)`: `v` only when it compares greater than 10, so a NaN gives 10. */
  function AtLeastTen(v: Value): (r: Value)
    ensures r.Num? && r.x >= 10.0
    ensures r == Num(10.0) || r == v
    ensures v.Num? && v.x > 10.0 ==> r == v
  {
    if v.Num? && v.x > 10.0 then v else Num(10.0)
  }

  /** Reorder_Quantity when that column exists, else two weeks of sales, else twice the level; the last two at least 10. */
  function SuggestedQuantity(t: Table, row: Row): (r: Value)
  {
    if Has(t, "Reorder_Quantity") then Cell(row, "Reorder_Quantity")
    else if Has(t, "Sales_Volume") then AtLeastTen(Times(Ratio(Cell(row, "Sales_Volume"), Num(30.0)), Num(14.0)))
    else AtLeastTen(Times(Cell(row, "Reorder_Level"), Num(2.0)))
  }

  /** `row.get(c, 'N/A')`. */
  function GetOr(t: Table, row: Row, c: string): Value {
    if Has(t, c) then Cell(row, c) else Text("N/A")
  }

  /**
   * One reorder item: the dict built for a selected row. The optional fields are present
   * exactly when their source column exists.
   */
  datatype ReorderItem = ReorderItem(
    productId: Value,
    productName: Value,
    currentStock: Value,
    reorderLevel: Value,
    suggestedOrderQty: Value,
    supplierId: Option<Value>,
    supplierName: Option<Value>,
    unitPrice: Option<Value>,
    estimatedCost: Option<Value>,
    warehouse: Option<Value>)

  /** `row[c]` when column `c` exists. */
  function IfPresent(t: Table, row: Row, c: string): (r: Option<Value>)
    ensures r.Some? <==> Has(t, c)
    ensures r.Some? ==> r.value == Cell(row, c)
  {
    if Has(t, c) then Some(Cell(row, c)) else None
  }

  /** The item built for one selected row. */
  function MakeItem(t: Table, row: Row): (item: ReorderItem)
  {
    var qty := SuggestedQuantity(t, row);
    ReorderItem(
      GetOr(t, row, "Product_ID"),
      GetOr(t, row, "Product_Name"),
      Cell(row, "Stock_Quantity"),
      Cell(row, "Reorder_Level"),
      qty,
      IfPresent(t, row, "Supplier_ID"),
      IfPresent(t, row, "Supplier_Name"),
      IfPresent(t, row, "Unit_Price"),
      if Has(t, "Unit_Price") then Some(Times(qty, Cell(row, "Unit_Price"))) else None,
      IfPresent(t, row, "Warehouse_Location"))
  }

  /** The keys of an item, in the order they are inserted into the dict. */
  function ItemKeys(item: ReorderItem): (r: seq<string>)
  {
    ["Product_ID", "Product_Name", "Current_Stock", "Reorder_Level", "Suggested_Order_Qty"]
    + (if item.supplierId.Some? then ["Supplier_ID"] else [])
    + (if item.supplierName.Some? then ["Supplier_Name"] else [])
    + (if item.unitPrice.Some? then ["Unit_Price"] else [])
    + (if item.estimatedCost.Some? then ["Estimated_Cost"] else [])
    + (if item.warehouse.Some? then ["Warehouse"] else [])
  }

  /** The items for a sequence of selected rows, one each, in order. */
  function Items(t: Table, rows: seq<Row>): (r: seq<ReorderItem>)
    ensures |r| == |rows|
    ensures forall i :: 0 <= i < |rows| ==> r[i] == MakeItem(t, rows[i])
  {
    seq(|rows|, i requires 0 <= i < |rows| => MakeItem(t, rows[i]))
  }

  lemma ItemsAppend(t: Table, rows: seq<Row>, row: Row)
    ensures Items(t, rows + [row]) == Items(t, rows) + [MakeItem(t, row)]
  {
    assert forall i :: 0 <= i < |rows| ==> (rows + [row])[i] == rows[i];
  }

  /** The reorder list of `rows`: one item per row that needs reordering, in order. */
  function ReorderItems(t: Table, rows: seq<Row>): seq<ReorderItem> {
    Items(t, Where(rows, NeedsReorder))
  }

  lemma ReorderItemsAppend(t: Table, rows: seq<Row>, row: Row)
    ensures ReorderItems(t, rows + [row]) == ReorderItems(t, rows) + (if NeedsReorder(row) then [MakeItem(t, row)] else [])
  {
    WhereAppend(rows, [row], NeedsReorder);
    if NeedsReorder(row) {
      ItemsAppend(t, Where(rows, NeedsReorder), row);
    } else {
      assert Where(rows + [row], NeedsReorder) == Where(rows, NeedsReorder);
    }
  }

  /**
   * Every item of one table has the same keys, which depend only on the columns: identifiers
   * default to 'N/A', and the cost appears exactly with the price and is quantity times price.
   */
  lemma MakeItemFields(t: Table, row: Row, other: Row)
    ensures var item := MakeItem(t, row);
      ItemKeys(item) == ItemKeys(MakeItem(t, other))
      && item.productId == (if Has(t, "Product_ID") then Cell(row, "Product_ID") else Text("N/A"))
      && item.productName == (if Has(t, "Product_Name") then Cell(row, "Product_Name") else Text("N/A"))
      && item.currentStock == Cell(row, "Stock_Quantity") && item.reorderLevel == Cell(row, "Reorder_Level")
      && (Has(t, "Reorder_Quantity") ==> item.suggestedOrderQty == Cell(row, "Reorder_Quantity"))
      && (!Has(t, "Reorder_Quantity") ==> item.suggestedOrderQty.Num? && item.suggestedOrderQty.x >= 10.0)
      && (item.estimatedCost.Some? <==> item.unitPrice.Some?)
      && (item.unitPrice.Some? <==> Has(t, "Unit_Price"))
      && (item.unitPrice.Some? ==> item.estimatedCost.value == Times(item.suggestedOrderQty, item.unitPrice.value))
      && (item.warehouse.Some? <==> Has(t, "Warehouse_Location"))
      && (item.supplierId.Some? <==> Has(t, "Supplier_ID"))
      && (item.supplierName.Some? <==> Has(t, "Supplier_Name"))
  {
  }

  /** Without Reorder_Quantity the suggestion is a number of at least 10 (two weeks of sales or twice the level, when larger). */
  lemma SuggestedQuantityBound(t: Table, row: Row)
    requires !Has(t, "Reorder_Quantity")
    ensures SuggestedQuantity(t, row).Num? && SuggestedQuantity(t, row).x >= 10.0
    ensures Has(t, "Sales_Volume") && Cell(row, "Sales_Volume").Num? && Cell(row, "Sales_Volume").x / 30.0 * 14.0 > 10.0 ==>
      SuggestedQuantity(t, row).x == Cell(row, "Sales_Volume").x / 30.0 * 14.0
    ensures !Has(t, "Sales_Volume") && Cell(row, "Reorder_Level").Num? && Cell(row, "Reorder_Level").x * 2.0 > 10.0 ==>
      SuggestedQuantity(t, row).x == Cell(row, "Reorder_Level").x * 2.0
  {
  }

  /** The reorder list holds one item per selected row; a row is selected, with all its occurrences, exactly when it needs reordering. */
  lemma ReorderSelection(t: Table, x: Row)
    ensures |ReorderItems(t, t.rows)| == |Where(t.rows, NeedsReorder)|
    ensures forall i :: 0 <= i < |ReorderItems(t, t.rows)| ==>
      ReorderItems(t, t.rows)[i] == MakeItem(t, Where(t.rows, NeedsReorder)[i])
    ensures multiset(Where(t.rows, NeedsReorder))[x] == if NeedsReorder(x) then multiset(t.rows)[x] else 0
  {
    WhereCount(t.rows, NeedsReorder, x);
  }

  // ---------------------------------------------------------------------------
  // Demand estimate

  /** Python's `round` on a float: to the nearest integer, halves to the even neighbour. */
  function RoundHalfEven(x: real): (n: int)
    ensures -1.0 / 2.0 <= n as real - x <= 1.0 / 2.0
    ensures (n as real - x == 1.0 / 2.0 || x - n as real == 1.0 / 2.0) ==> n % 2 == 0
  {
    var f := x.Floor;
    var d := x - f as real;
    if d < 1.0 / 2.0 then f
    else if d > 1.0 / 2.0 then f + 1
    else if f % 2 == 0 then f
    else f + 1
  }

  /** The rounding is the only integer within a half of `x`, the even one at a tie. */
  lemma RoundHalfEvenUnique(x: real, m: int)
    requires -1.0 / 2.0 <= m as real - x <= 1.0 / 2.0
    requires (m as real - x == 1.0 / 2.0 || x - m as real == 1.0 / 2.0) ==> m % 2 == 0
    ensures m == RoundHalfEven(x)
  {
  }

  /** Monthly sales spread over 30 days and scaled to `days`. */
  function DailyDemand(sales: real, days: int): (r: real)
    ensures r * 30.0 == sales * days as real
  {
    sales / 30.0 * days as real
  }

  // ---------------------------------------------------------------------------
  // Seasonal suggestions

  /** One seasonal suggestion: a Season value and its buffered quantity. */
  datatype Suggestion = Suggestion(season: Value, quantity: real)

  /** A 'Quantity Sold' cell `sum()` can add: a number, or a missing cell that it skips. */
  predicate Summable(row: Row) {
    Cell(row, "Quantity Sold").Num? || Cell(row, "Quantity Sold").Missing?
  }

  /** Some row of a Season group holds a 'Quantity Sold' text or date, which `sum() * 1.1` cannot take. */
  predicate UnsummableGroup(rows: seq<Row>) {
    exists i :: 0 <= i < |rows| && !Cell(rows[i], "Season").Missing? && !Summable(rows[i])
  }

  const CannotSum := "unsupported operand type(s) for 'Quantity Sold' sum"

  /** A 'Quantity Sold' cell as `sum()` adds it: missing cells count 0 (a text or a date raises first, see `UnsummableGroup`). */
  function Sold(row: Row): real {
    var v := Cell(row, "Quantity Sold");
    if v.Num? then v.x else 0.0
  }

  /** The total sold over the rows whose Season is in `keys`. */
  function SoldIn(rows: seq<Row>, keys: set<Value>): real {
    if rows == [] then 0.0
    else (if Cell(rows[0], "Season") in keys then Sold(rows[0]) else 0.0) + SoldIn(rows[1..], keys)
  }

  /** The Season values of the rows; groupby drops the missing ones. */
  function SeasonKeys(rows: seq<Row>): (r: seq<Value>)
  {
    if rows == [] then []
    else (if Cell(rows[0], "Season").Missing? then [] else [Cell(rows[0], "Season")]) + SeasonKeys(rows[1..])
  }

  /** The group keys are exactly the Season values that occur and are not missing. */
  lemma {:induction false} SeasonKeysIff(rows: seq<Row>, v: Value)
    ensures v in SeasonKeys(rows) <==> !v.Missing? && exists row :: row in rows && Cell(row, "Season") == v
  {
    if rows != [] {
      SeasonKeysIff(rows[1..], v);
      assert forall row :: row in rows <==> row == rows[0] || row in rows[1..];
    }
  }

  lemma {:induction false} SoldInNone(rows: seq<Row>)
    ensures SoldIn(rows, {}) == 0.0
  {
    if rows != [] {
      SoldInNone(rows[1..]);
    }
  }

  /** Sums of quantities of a list of suggestions. */
  function TotalQuantity(s: seq<Suggestion>): real {
    if s == [] then 0.0 else s[0].quantity + TotalQuantity(s[1..])
  }

  lemma {:induction false} SoldInUnion(rows: seq<Row>, a: set<Value>, b: set<Value>)
    requires a !! b
    ensures SoldIn(rows, a + b) == SoldIn(rows, a) + SoldIn(rows, b)
  {
    if rows != [] {
      SoldInUnion(rows[1..], a, b);
    }
  }

  lemma {:induction false} TotalQuantityAppend(s: seq<Suggestion>, x: Suggestion)
    ensures TotalQuantity(s + [x]) == TotalQuantity(s) + x.quantity
  {
    if s != [] {
      assert (s + [x])[1..] == s[1..] + [x];
      TotalQuantityAppend(s[1..], x);
    }
  }

  /** The object holding the shared dataframe. */
  class ReorderEngine {
    var df: DataFrame

    constructor (d: DataFrame)
      ensures df == d
    {
      df := d;
    }

    /** `generate_reorder_list`: the item records, before they are put into a DataFrame. */
    method GenerateReorderList() returns (res: Result<seq<ReorderItem>>)
      ensures !(Has(df.table, "Stock_Quantity") && Has(df.table, "Reorder_Level") && Has(df.table, "Status")) ==>
        res == Err(ValueError("Missing required columns: Stock_Quantity, Reorder_Level, Status"))
      ensures Has(df.table, "Stock_Quantity") && Has(df.table, "Reorder_Level") && Has(df.table, "Status") ==>
        res == Ok(ReorderItems(df.table, df.table.rows))
    {
      var t := df.table;
      if !(Has(t, "Stock_Quantity") && Has(t, "Reorder_Level") && Has(t, "Status")) {
        return Err(ValueError("Missing required columns: Stock_Quantity, Reorder_Level, Status"));
      }
      var reorderList: seq<ReorderItem> := [];
      var k := 0;
      while k < |t.rows|
        invariant 0 <= k <= |t.rows|
        invariant reorderList == ReorderItems(t, t.rows[..k])
      {
        var row := t.rows[k];
        assert t.rows[..k + 1] == t.rows[..k] + [row];
        ReorderItemsAppend(t, t.rows[..k], row);
        if NeedsReorder(row) {
          reorderList := reorderList + [MakeItem(t, row)];
        }
        k := k + 1;
      }
      assert t.rows[..k] == t.rows;
      res := Ok(reorderList);
    }

    /**
     * `predict_future_demand`: None without Product_ID or Sales_Volume or without a matching row;
     * otherwise the first match's monthly sales scaled to `days`, rounded half to even.
     * A missing sales figure makes `round` raise.
     */
    function PredictFutureDemand(productId: Value, days: int): (r: Result<Option<int>>)
      reads this, df
      ensures r == Ok(None) <==>
        !Has(df.table, "Product_ID") || !Has(df.table, "Sales_Volume") || FirstMatchIndex(df.table.rows, productId).None?
      ensures r.Ok? && r.value.Some? ==>
        var i := FirstMatchIndex(df.table.rows, productId);
        i.Some? && Cell(df.table.rows[i.value], "Sales_Volume").Num?
        && r.value.value == RoundHalfEven(DailyDemand(Cell(df.table.rows[i.value], "Sales_Volume").x, days))
      ensures r.Err? ==>
        r == Err(ValueError("cannot convert float NaN to integer"))
        && FirstMatchIndex(df.table.rows, productId).Some?
        && !Cell(df.table.rows[FirstMatchIndex(df.table.rows, productId).value], "Sales_Volume").Num?
    {
      var t := df.table;
      if !Has(t, "Product_ID") || !Has(t, "Sales_Volume") then Ok(None)
      else
        var matches := ProductRows(t.rows, productId);
        FirstOfMatches(t.rows, productId);
        if matches == [] then Ok(None)
        else
          var sales := Cell(matches[0], "Sales_Volume");
          if sales.Num? then Ok(Some(RoundHalfEven(DailyDemand(sales.x, days))))
          else Err(ValueError("cannot convert float NaN to integer"))
    }

    /**
     * `seasonal_reorder`: None unless Season and 'Quantity Sold' both exist; a TypeError when a
     * grouped row's 'Quantity Sold' is a text or a date; otherwise one suggestion per distinct
     * non-missing Season in ascending order, 1.1 times its group's total.
     */
    method SeasonalReorder() returns (res: Result<Option<seq<Suggestion>>>)
      ensures res == Ok(None) <==> !Has(df.table, "Season") || !Has(df.table, "Quantity Sold")
      ensures res.Err? <==> Has(df.table, "Season") && Has(df.table, "Quantity Sold") && UnsummableGroup(df.table.rows)
      ensures res.Err? ==> res.error == TypeError(CannotSum)
      ensures res.Ok? && res.value.Some? ==> |res.value.value| == |SortedDistinct(SeasonKeys(df.table.rows))|
      ensures res.Ok? && res.value.Some? ==> forall i :: 0 <= i < |res.value.value| ==>
        res.value.value[i] == Suggestion(SortedDistinct(SeasonKeys(df.table.rows))[i],
                                   11.0 / 10.0 * SoldIn(df.table.rows, {SortedDistinct(SeasonKeys(df.table.rows))[i]}))
      ensures res.Ok? && res.value.Some? ==>
        TotalQuantity(res.value.value) == 11.0 / 10.0 * SoldIn(df.table.rows, Members(SeasonKeys(df.table.rows)))
    {
      var t := df.table;
      if !(Has(t, "Season") && Has(t, "Quantity Sold")) {
        return Ok(None);
      }
      if UnsummableGroup(t.rows) {
        return Err(TypeError(CannotSum));
      }
      var keys := SortedDistinct(SeasonKeys(t.rows));
      SortedDistinctCorrect(SeasonKeys(t.rows));
      var suggestions: seq<Suggestion> := [];
      var k := 0;
      SoldInNone(t.rows);
      assert Members(keys[..0]) == {};
      while k < |keys|
        invariant 0 <= k <= |keys|
        invariant |suggestions| == k
        invariant forall i :: 0 <= i < k ==> suggestions[i] == Suggestion(keys[i], 11.0 / 10.0 * SoldIn(t.rows, {keys[i]}))
        invariant TotalQuantity(suggestions) == 11.0 / 10.0 * SoldIn(t.rows, Members(keys[..k]))
      {
        var season := keys[k];
        var qty := 11.0 / 10.0 * SoldIn(t.rows, {season});
        TotalQuantityAppend(suggestions, Suggestion(season, qty));
        assert season !in keys[..k] by {
          forall j | 0 <= j < k ensures keys[j] != season {
            if keys[j] == season {
              StrictlyIncreasingDistinct(keys, j, k);
            }
          }
        }
        SoldInUnion(t.rows, Members(keys[..k]), {season});
        assert Members(keys[..k + 1]) == Members(keys[..k]) + {season} by {
          assert keys[..k + 1] == keys[..k] + [season];
        }
        suggestions := suggestions + [Suggestion(season, qty)];
        k := k + 1;
      }
      assert keys[..k] == keys;
      assert Members(keys) == Members(SeasonKeys(t.rows));
      res := Ok(Some(suggestions));
    }
  }

  /** `df['Product_ID'] == product_id` on one row: a missing cell equals nothing. */
  predicate MatchesProduct(row: Row, productId: Value) {
    Cell(row, "Product_ID") == productId && !productId.Missing?
  }

  /** Row `i` is the first row matching the product. */
  predicate FirstMatch(rows: seq<Row>, productId: Value, i: nat)
    requires i < |rows|
  {
    MatchesProduct(rows[i], productId) && forall j :: 0 <= j < i ==> !MatchesProduct(rows[j], productId)
  }

  /** The position of the first row matching the product, if any. */
  function FirstMatchIndex(rows: seq<Row>, productId: Value): (r: Option<nat>)
    ensures r.Some? ==> r.value < |rows| && FirstMatch(rows, productId, r.value)
    ensures r.None? ==> forall i :: 0 <= i < |rows| ==> !MatchesProduct(rows[i], productId)
  {
    if rows == [] then None
    else if MatchesProduct(rows[0], productId) then Some(0)
    else
      match FirstMatchIndex(rows[1..], productId)
      case None =>
        assert forall i :: 1 <= i < |rows| ==> rows[i] == rows[1..][i - 1];
        None
      case Some(i) =>
        assert forall j :: 1 <= j <= i ==> rows[j] == rows[1..][j - 1];
        Some(i + 1)
  }

  /** `df[df['Product_ID'] == product_id]`: the matching rows in order. */
  function ProductRows(rows: seq<Row>, productId: Value): seq<Row> {
    Where(rows, row => MatchesProduct(row, productId))
  }

  /** The selected rows are empty exactly without a match, and otherwise start with the first matching row. */
  lemma {:induction false} FirstOfMatches(rows: seq<Row>, productId: Value)
    ensures var m := ProductRows(rows, productId);
      (m == [] <==> FirstMatchIndex(rows, productId).None?)
      && (m != [] ==> m[0] == rows[FirstMatchIndex(rows, productId).value])
  {
    if rows != [] {
      FirstOfMatches(rows[1..], productId);
      assert ProductRows(rows, productId) ==
        (if MatchesProduct(rows[0], productId) then [rows[0]] else []) + ProductRows(rows[1..], productId);
    }
  }
}
