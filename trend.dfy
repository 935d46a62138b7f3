/**
 * Trend detection on one column: a trailing moving average over a clamped window, and the
 * direction and relative strength from the first to the last smoothed value.
 */
module Trend {
  import opened Wrappers
  import opened Values
  import opened Tables

  datatype Direction = Insufficient | Increasing | Decreasing

  /**
   * The report's `trend` and `strength`. The strength is `None` where the division by a
   * first smoothed value of 0 yields an infinity or NaN.
   */
  datatype TrendReport = TrendReport(direction: Direction, strength: Option<real>)

  function Sum(xs: seq<real>): real {
    if xs == [] then 0.0 else xs[0] + Sum(xs[1..])
  }

  /** The window's numbers, or `None` when a cell is not a number (a NaN window). */
  function Numbers(w: seq<Value>): (r: Option<seq<real>>)
    ensures r.Some? <==> forall i :: 0 <= i < |w| ==> w[i].Num?
    ensures r.Some? ==> |r.value| == |w| && forall i :: 0 <= i < |w| ==> r.value[i] == w[i].x
  {
    if w == [] then Some([])
    else if !w[0].Num? then None
    else
      var rest := Numbers(w[1..]);
      if rest.None? then
        assert exists i :: 0 <= i < |w| && !w[i].Num? by {
          var j :| 0 <= j < |w[1..]| && !w[1..][j].Num?;
          assert w[j + 1] == w[1..][j];
        }
        None
      else
        assert forall i :: 1 <= i < |w| ==> w[i] == w[1..][i - 1];
        Some([w[0].x] + rest.value)
  }

  /** The mean of a window; a window holding a missing cell has none (`min_periods` is the window). */
  function WindowMean(w: seq<Value>): (r: Option<real>)
    requires |w| > 0
    ensures r.Some? <==> forall i :: 0 <= i < |w| ==> w[i].Num?
    ensures r.Some? ==> r.value * (|w| as real) == Sum(Numbers(w).value)
  {
    var xs := Numbers(w);
    if xs.None? then None else Some(Sum(xs.value) / (|w| as real))
  }

  /**
   * `rolling(window=w).mean()` from the first full window on: one entry per window position,
   * defined exactly when the `w` cells from that position on are all numbers.
   */
  function RollingMeans(vals: seq<Value>, w: nat): (r: seq<Option<real>>)
    requires 1 <= w <= |vals|
    ensures |r| == |vals| - w + 1
    ensures forall i :: 0 <= i < |r| ==> r[i] == WindowMean(vals[i..i + w])
    ensures forall i :: 0 <= i < |r| ==> (r[i].Some? <==> forall k :: i <= k < i + w ==> vals[k].Num?)
  {
    seq(|vals| - w + 1, i requires 0 <= i < |vals| - w + 1 => WindowMean(vals[i..i + w]))
  }

  /** `dropna()`: the defined entries, in order. */
  function Defined(s: seq<Option<real>>): (r: seq<real>)
    ensures |r| <= |s|
  {
    if s == [] then []
    else (if s[0].Some? then [s[0].value] else []) + Defined(s[1..])
  }

  lemma {:induction false} DefinedAll(s: seq<Option<real>>)
    requires forall i :: 0 <= i < |s| ==> s[i].Some?
    ensures |Defined(s)| == |s|
    ensures forall i :: 0 <= i < |s| ==> Defined(s)[i] == s[i].value
  {
    if s != [] {
      DefinedAll(s[1..]);
    }
  }

  /** `min(window_size, len(df))`. */
  function ClampedWindow(windowSize: int, n: nat): int {
    if windowSize <= n then windowSize else n
  }

  /** The smoothed values the trend is read from; none are computed for a window below 2. */
  function Smoothed(vals: seq<Value>, windowSize: int): seq<real> {
    var w := ClampedWindow(windowSize, |vals|);
    if w < 2 then [] else Defined(RollingMeans(vals, w))
  }

  /** A relative change, undefined for a zero base. */
  function Relative(change: real, base: real): (r: Option<real>)
    ensures r.Some? <==> base != 0.0
    ensures r.Some? ==> r.value * base == change
  {
    if base == 0.0 then None else Some(change / base)
  }

  function TrendOf(vals: seq<Value>, windowSize: int): TrendReport {
    var valid := Smoothed(vals, windowSize);
    if ClampedWindow(windowSize, |vals|) < 2 || |valid| < 2 then TrendReport(Insufficient, Some(0.0))
    else
      var first := valid[0];
      var last := valid[|valid| - 1];
      if last > first then TrendReport(Increasing, Relative(last - first, first))
      else TrendReport(Decreasing, Relative(first - last, first))
  }

  /**
   * One cell as the float64 conversion in front of `rolling` sees it: numbers and missing
   * cells pass, a text becomes the number `float()` reads from it, and a date or a text
   * `float()` rejects cannot be converted.
   */
  function AsFloat(v: Value, parse: string -> Option<real>): (r: Option<Value>)
    ensures r.None? <==> v.Date? || (v.Text? && parse(v.s).None?)
    ensures r.Some? ==> r.value.Num? || r.value.Missing?
    ensures v.Num? || v.Missing? ==> r == Some(v)
    ensures v.Text? && parse(v.s).Some? ==> r == Some(Num(parse(v.s).value))
  {
    match v
    case Num(_) => Some(v)
    case Missing => Some(v)
    case Date(_) => None
    case Text(s) => (match parse(s) case Some(x) => Some(Num(x)) case None => None)
  }

  predicate Convertible(vals: seq<Value>, parse: string -> Option<real>) {
    forall i :: 0 <= i < |vals| ==> AsFloat(vals[i], parse).Some?
  }

  /** The column converted to float64, cell by cell. */
  function Floats(vals: seq<Value>, parse: string -> Option<real>): (r: seq<Value>)
    requires Convertible(vals, parse)
    ensures |r| == |vals|
    ensures forall i :: 0 <= i < |vals| ==> Some(r[i]) == AsFloat(vals[i], parse)
  {
    seq(|vals|, i requires 0 <= i < |vals| && Convertible(vals, parse) => AsFloat(vals[i], parse).value)
  }

  /**
   * What `rolling(...).mean()` raises when the column cannot be prepared as float64: the
   * datetime and conversion failures inside pandas are both re-raised as this DataError.
   */
  const NoNumericTypes := "No numeric types to aggregate"

  /**
   * `detect_trend`: a ValueError for an absent column; "insufficient data" for a window below 2;
   * otherwise the rolling mean, which raises a DataError on a datetime column and on a column
   * with a date or a text `float()` rejects, else the trend of the converted values.
   */
  function DetectTrend(t: Table, column: string, windowSize: int, parse: string -> Option<real>): (r: Result<TrendReport>)
    ensures r.Err? <==> (!Has(t, column) || (ClampedWindow(windowSize, |t.rows|) >= 2
      && (KindOf(t.columns, column) == DateTime || !Convertible(ColumnValues(t, column), parse))))
    ensures !Has(t, column) ==> r == Err(ValueError("Column '" + column + "' not found in dataframe"))
    ensures Has(t, column) && r.Err? ==> r == Err(DataError(NoNumericTypes))
    ensures r.Ok? && ClampedWindow(windowSize, |t.rows|) < 2 ==> r.value == TrendReport(Insufficient, Some(0.0))
    ensures r.Ok? && ClampedWindow(windowSize, |t.rows|) >= 2 ==>
      Convertible(ColumnValues(t, column), parse)
      && r.value == TrendOf(Floats(ColumnValues(t, column), parse), windowSize)
  {
    if !Has(t, column) then Err(ValueError("Column '" + column + "' not found in dataframe"))
    else if ClampedWindow(windowSize, |t.rows|) < 2 then Ok(TrendReport(Insufficient, Some(0.0)))
    else if KindOf(t.columns, column) == DateTime || !Convertible(ColumnValues(t, column), parse) then
      Err(DataError(NoNumericTypes))
    else Ok(TrendOf(Floats(ColumnValues(t, column), parse), windowSize))
  }

  /** The trend depends on the column only through its cells, its dtype and the table's height. */
  lemma SameColumnSameTrend(a: Table, ca: string, b: Table, cb: string, windowSize: int, parse: string -> Option<real>)
    requires Has(a, ca) && Has(b, cb) && |a.rows| == |b.rows|
    requires ColumnValues(a, ca) == ColumnValues(b, cb) && KindOf(a.columns, ca) == KindOf(b.columns, cb)
    ensures DetectTrend(a, ca, windowSize, parse) == DetectTrend(b, cb, windowSize, parse)
  {
  }

  /** A column of numbers passes the conversion unchanged, so its trend is the trend of its values. */
  lemma NumericTrend(t: Table, column: string, windowSize: int, parse: string -> Option<real>)
    requires Has(t, column) && KindOf(t.columns, column) != DateTime
    requires forall i :: 0 <= i < |t.rows| ==> Cell(t.rows[i], column).Num?
    ensures DetectTrend(t, column, windowSize, parse) == Ok(TrendOf(ColumnValues(t, column), windowSize))
  {
    var vals := ColumnValues(t, column);
    if ClampedWindow(windowSize, |t.rows|) >= 2 {
      assert Floats(vals, parse) == vals;
    }
  }

  /**
   * On a column of numbers, the report is "insufficient data" with strength 0 exactly when
   * the window is below 2 or the column is no longer than the window.
   */
  lemma TrendInsufficientIff(vals: seq<Value>, windowSize: int)
    requires forall i :: 0 <= i < |vals| ==> vals[i].Num?
    ensures TrendOf(vals, windowSize).direction == Insufficient <==> windowSize < 2 || |vals| <= windowSize
    ensures TrendOf(vals, windowSize).direction == Insufficient ==> TrendOf(vals, windowSize).strength == Some(0.0)
  {
    var w := ClampedWindow(windowSize, |vals|);
    if w >= 2 {
      var m := RollingMeans(vals, w);
      forall i | 0 <= i < |m| ensures m[i].Some? {
        assert m[i] == WindowMean(vals[i..i + w]);
      }
      DefinedAll(m);
    }
  }

  /**
   * With enough data, the trend increases iff the last smoothed value exceeds the first
   * (a tie reads as decreasing), and the strength is the change relative to the first value,
   * defined iff that value is not 0.
   */
  lemma TrendDirection(vals: seq<Value>, windowSize: int)
    requires TrendOf(vals, windowSize).direction != Insufficient
    ensures |Smoothed(vals, windowSize)| >= 2
    ensures var s := Smoothed(vals, windowSize);
      var r := TrendOf(vals, windowSize);
      (r.direction == Increasing <==> s[|s| - 1] > s[0])
      && (r.strength.Some? <==> s[0] != 0.0)
      && (r.strength.Some? && r.direction == Increasing ==> r.strength.value * s[0] == s[|s| - 1] - s[0])
      && (r.strength.Some? && r.direction == Decreasing ==> r.strength.value * s[0] == s[0] - s[|s| - 1])
  {
  }

  function Ramp(n: nat): (r: seq<Value>)
    ensures |r| == n && forall i :: 0 <= i < n ==> r[i] == Num((i + 1) as real)
  {
    seq(n, i => Num((i + 1) as real))
  }

  lemma RampMean(i: nat)
    requires i + 5 <= 10
    ensures WindowMean(Ramp(10)[i..i + 5]) == Some((i + 3) as real)
  {
    var w := Ramp(10)[i..i + 5];
    assert w == [Num((i + 1) as real), Num((i + 2) as real), Num((i + 3) as real), Num((i + 4) as real), Num((i + 5) as real)];
    assert Numbers(w).value == [(i + 1) as real, (i + 2) as real, (i + 3) as real, (i + 4) as real, (i + 5) as real];
    SumFive((i + 1) as real, (i + 2) as real, (i + 3) as real, (i + 4) as real, (i + 5) as real);
  }

  lemma SumFive(a: real, b: real, c: real, d: real, e: real)
    ensures Sum([a, b, c, d, e]) == a + b + c + d + e
  {
    assert [a, b, c, d, e][1..] == [b, c, d, e];
    assert [b, c, d, e][1..] == [c, d, e];
    assert [c, d, e][1..] == [d, e];
    assert [d, e][1..] == [e];
    assert [e][1..] == [];
    assert Sum([e]) == e;
    assert Sum([d, e]) == d + e;
    assert Sum([c, d, e]) == c + d + e;
    assert Sum([b, c, d, e]) == b + c + d + e;
  }

  /** The values 1..10 with window 5 smooth to 3..8: increasing, with strength (8 - 3) / 3. */
  lemma RampTrend()
    ensures TrendOf(Ramp(10), 5) == TrendReport(Increasing, Some(5.0 / 3.0))
  {
    var m := RollingMeans(Ramp(10), 5);
    forall i | 0 <= i < 6 ensures m[i] == Some((i + 3) as real) {
      RampMean(i);
    }
    DefinedAll(m);
    var s := Smoothed(Ramp(10), 5);
    assert |s| == 6 && s[0] == 3.0 && s[5] == 8.0;
  }
}
