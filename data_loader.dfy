/**
 * Cell-level cleaning of the loaded inventory table: Status normalisation, currency and
 * percent stripping, numeric coercion, and the derived Days_Of_Inventory metric.
 * Float text parsing is a parameter (`parse`), not modelled.
 */
module DataLoader {
  import opened Wrappers
  import opened Values
  import opened Tables

  // ---------------------------------------------------------------------------
  // Characters

  /** Python's `str.isspace`: the characters `strip()` removes. */
  predicate IsSpace(c: char) {
    c == '\t' || c == '\n' || c == '\U{0B}' || c == '\U{0C}' || c == '\r'
    || ('\U{1C}' <= c <= '\U{1F}') || c == ' ' || c == '\U{85}' || c == '\U{A0}'
    || c == '\U{1680}' || ('\U{2000}' <= c <= '\U{200A}') || c == '\U{2028}' || c == '\U{2029}'
    || c == '\U{202F}' || c == '\U{205F}' || c == '\U{3000}'
  }

  predicate IsUpper(c: char) { 'A' <= c <= 'Z' }
  predicate IsLower(c: char) { 'a' <= c <= 'z' }
  predicate IsCased(c: char) { IsUpper(c) || IsLower(c) }

  function ToLower(c: char): char {
    if IsUpper(c) then (c as int + 32) as char else c
  }

  function ToUpper(c: char): char {
    if IsLower(c) then (c as int - 32) as char else c
  }

  function LowerStr(s: string): (r: string)
    ensures |r| == |s|
  {
    if s == [] then [] else [ToLower(s[0])] + LowerStr(s[1..])
  }

  // ---------------------------------------------------------------------------
  // Trimming

  /** Drops the longest suffix of characters satisfying `drop` (Python's `rstrip`). */
  function TrimTrailing(s: string, drop: char -> bool): (r: string)
    ensures r <= s
    ensures r == [] || !drop(r[|r| - 1])
    ensures forall k :: |r| <= k < |s| ==> drop(s[k])
  {
    if s == [] || !drop(s[|s| - 1]) then s else TrimTrailing(s[..|s| - 1], drop)
  }

  /** Drops the longest prefix of characters satisfying `drop` (Python's `lstrip`). */
  function TrimLeading(s: string, drop: char -> bool): (r: string)
    ensures |r| <= |s| && r == s[|s| - |r|..]
    ensures r == [] || !drop(r[0])
    ensures forall k :: 0 <= k < |s| - |r| ==> drop(s[k])
  {
    if s == [] || !drop(s[0]) then s else TrimLeading(s[1..], drop)
  }

  /** `str.strip()`: removes leading and trailing whitespace. */
  function Strip(s: string): (r: string)
    ensures r == [] || (!IsSpace(r[0]) && !IsSpace(r[|r| - 1]))
  {
    TrimTrailing(TrimLeading(s, IsSpace), IsSpace)
  }

  // ---------------------------------------------------------------------------
  // Title case and Status

  /** `str.title()` on the rest of a string, given whether the previous character was cased. */
  function TitleFrom(s: string, prevCased: bool): (r: string)
    ensures |r| == |s|
  {
    if s == [] then []
    else [if prevCased then ToLower(s[0]) else ToUpper(s[0])] + TitleFrom(s[1..], IsCased(s[0]))
  }

  /** `str.title()`: every cased character after an uncased one (or at the start) upper-case, all other cased ones lower-case. */
  function Title(s: string): string {
    TitleFrom(s, false)
  }

  /** The status a title-cased text maps to: the three known words, any other text `fillna('Active')`. */
  function StatusOfTitle(n: string): (r: string)
    ensures r == "Active" || r == "Inactive"
    ensures r == "Inactive" <==> n == "Inactive" || n == "Discontinued"
  {
    if n == "Active" then "Active"
    else if n == "Inactive" || n == "Discontinued" then "Inactive"
    else "Active"
  }

  /** One Status text after `astype(str).str.strip().str.title()` and the status map. */
  function CleanStatus(s: string): (r: string)
    ensures r == "Active" || r == "Inactive"
  {
    StatusOfTitle(Title(Strip(s)))
  }

  /** A Status cell after cleaning. A missing cell is the text "nan"; a number or a date prints as digits, never a status word. */
  function CleanStatusCell(v: Value): (r: Value)
    ensures r == Text("Active") || r == Text("Inactive")
  {
    match v
    case Text(s) => Text(CleanStatus(s))
    case Missing => Text(CleanStatus("nan"))
    case _ => Text("Active")
  }

  predicate IsLowerWord(w: string) {
    forall k :: 0 <= k < |w| ==> IsLower(w[k])
  }

  lemma {:induction false} TitleAfterCasedIff(x: string, w: string)
    requires IsLowerWord(w)
    ensures TitleFrom(x, true) == w <==> LowerStr(x) == w
  {
    if x != [] && w != [] {
      var a := TitleFrom(x, true);
      var b := LowerStr(x);
      assert a[0] == ToLower(x[0]) && b[0] == ToLower(x[0]);
      if ToLower(x[0]) == w[0] {
        assert IsLower(w[0]);
        assert IsCased(x[0]);
        assert a[1..] == TitleFrom(x[1..], true);
        assert b[1..] == LowerStr(x[1..]);
        TitleAfterCasedIff(x[1..], w[1..]);
        assert a == [a[0]] + a[1..] && b == [b[0]] + b[1..] && w == [w[0]] + w[1..];
      } else {
        assert a[0] != w[0] && b[0] != w[0];
      }
    }
  }

  /** A string title-cases to a capitalised word exactly when it lower-cases to that word. */
  lemma TitleWordIff(x: string, w: string)
    requires w != [] && IsLowerWord(w)
    ensures Title(x) == [ToUpper(w[0])] + w[1..] <==> LowerStr(x) == w
  {
    var cap := [ToUpper(w[0])] + w[1..];
    if x != [] {
      var rest := TitleFrom(x[1..], IsCased(x[0]));
      assert Title(x) == [ToUpper(x[0])] + rest;
      assert LowerStr(x) == [ToLower(x[0])] + LowerStr(x[1..]);
      if ToLower(x[0]) == w[0] {
        assert IsCased(x[0]) && ToUpper(x[0]) == ToUpper(w[0]);
        TitleAfterCasedIff(x[1..], w[1..]);
        assert Title(x)[1..] == rest && cap[1..] == w[1..];
        assert LowerStr(x)[1..] == LowerStr(x[1..]);
        if Title(x) == cap {
          assert rest == w[1..];
        }
        if LowerStr(x) == w {
          assert LowerStr(x[1..]) == w[1..];
        }
      } else {
        assert ToUpper(x[0]) != ToUpper(w[0]);
        assert Title(x)[0] != cap[0];
        assert LowerStr(x)[0] != w[0];
      }
    }
  }

  lemma {:induction false} TitleFromLowerWord(w: string)
    requires IsLowerWord(w)
    ensures TitleFrom(w, true) == w
  {
    if w != [] {
      TitleFromLowerWord(w[1..]);
    }
  }

  /** A word already in title case, such as a cleaned status, is its own title case. */
  lemma TitleCapitalised(w: string)
    requires w != [] && IsUpper(w[0]) && IsLowerWord(w[1..])
    ensures Title(w) == w
  {
    TitleFromLowerWord(w[1..]);
    assert w == [w[0]] + w[1..];
  }

  /** A text with no surrounding whitespace is left alone by `strip()`. */
  lemma StripNoSpace(s: string)
    requires s != [] && !IsSpace(s[0]) && !IsSpace(s[|s| - 1])
    ensures Strip(s) == s
  {
  }

  /**
   * A Status becomes "Inactive" exactly when, with surrounding whitespace removed, it is
   * "inactive" or "discontinued" in any mix of letter case; everything else becomes "Active".
   */
  lemma CleanStatusInactiveIff(s: string)
    ensures CleanStatus(s) == "Inactive" <==>
      LowerStr(Strip(s)) == "inactive" || LowerStr(Strip(s)) == "discontinued"
  {
    var x := Strip(s);
    CapitalisedWords();
    TitleWordIff(x, "inactive");
    TitleWordIff(x, "discontinued");
  }

  lemma CapitalisedWords()
    ensures IsLowerWord("inactive") && [ToUpper('i')] + "inactive"[1..] == "Inactive"
    ensures IsLowerWord("discontinued") && [ToUpper('d')] + "discontinued"[1..] == "Discontinued"
  {
  }

  lemma StripWords()
    ensures Strip("nan") == "nan" && Strip("Active") == "Active" && Strip("Inactive") == "Inactive"
  {
    StripNan();
    StripActive();
    StripInactive();
  }

  lemma StripNan() ensures Strip("nan") == "nan" { StripNoSpace("nan"); }
  lemma StripActive() ensures Strip("Active") == "Active" { StripNoSpace("Active"); }
  lemma StripInactive() ensures Strip("Inactive") == "Inactive" { StripNoSpace("Inactive"); }

  lemma TitleWords()
    ensures Title("nan") == "Nan" && Title("Active") == "Active" && Title("Inactive") == "Inactive"
  {
    assert IsLowerWord("an") && IsLowerWord("ctive") && IsLowerWord("nactive");
    TitleFromLowerWord("an");
    TitleCapitalised("Active");
    TitleCapitalised("Inactive");
  }

  /** The text a missing cell prints as is cleaned to "Active". */
  lemma CleanStatusNan()
    ensures CleanStatus("nan") == "Active"
  {
    StripWords();
    TitleWords();
  }

  /** Cleaning an already cleaned Status changes nothing. */
  lemma CleanStatusIdempotent(s: string)
    ensures CleanStatus(CleanStatus(s)) == CleanStatus(s)
  {
    StripWords();
    TitleWords();
  }

  lemma CleanStatusCellIdempotent(v: Value)
    ensures CleanStatusCell(CleanStatusCell(v)) == CleanStatusCell(v)
  {
    var once := CleanStatusCell(v);
    assert CleanStatusCell(once) == Text(CleanStatus(once.s));
    CleanStatusIdempotent(once.s);
    if v.Text? {
      CleanStatusIdempotent(v.s);
    }
  }

  /** `clean_status_column`: normalises the Status column when it exists. */
  function CleanStatusColumn(t: Table): (r: Table)
    ensures Names(r.columns) == Names(t.columns) && |r.rows| == |t.rows|
    ensures Has(t, "Status") ==> forall i :: 0 <= i < |r.rows| ==>
      Cell(r.rows[i], "Status") == Text("Active") || Cell(r.rows[i], "Status") == Text("Inactive")
    ensures Has(t, "Status") ==> forall i :: 0 <= i < |t.rows| ==>
      Cell(r.rows[i], "Status") == CleanStatusCell(Cell(t.rows[i], "Status"))
    ensures forall i, d :: 0 <= i < |t.rows| && d != "Status" ==> Cell(r.rows[i], d) == Cell(t.rows[i], d)
    ensures !Has(t, "Status") ==> r == t
  {
    if Has(t, "Status") then MapColumn(t, "Status", CleanStatusCell, Object) else t
  }

  /** Cleaning the Status column twice is cleaning it once. */
  lemma CleanStatusColumnIdempotent(t: Table)
    ensures CleanStatusColumn(CleanStatusColumn(t)) == CleanStatusColumn(t)
  {
    if Has(t, "Status") {
      var once := CleanStatusColumn(t);
      var twice := CleanStatusColumn(once);
      assert SetKind(once.columns, "Status", Object) == once.columns by {
        SetKindIdempotent(t.columns, "Status", Object);
      }
      forall i | 0 <= i < |t.rows| ensures twice.rows[i] == once.rows[i] {
        CleanStatusCellIdempotent(Cell(t.rows[i], "Status"));
      }
    }
  }

  lemma {:induction false} SetKindIdempotent(cols: seq<Column>, c: string, k: Kind)
    ensures SetKind(SetKind(cols, c, k), c, k) == SetKind(cols, c, k)
  {
    if cols != [] {
      SetKindIdempotent(cols[1..], c, k);
    }
  }

  // ---------------------------------------------------------------------------
  // Unit_Price and percentage texts

  /** The characters the Unit_Price clean-up deletes: the regex class `[$€£,]`. */
  predicate IsCurrencyMark(c: char) {
    c == '$' || c == '\U{20AC}' || c == '\U{A3}' || c == ','
  }

  /** Deletes every currency mark and comma, keeping the other characters in order. */
  function StripCurrency(s: string): (r: string)
    ensures |r| <= |s|
    ensures forall k :: 0 <= k < |r| ==> !IsCurrencyMark(r[k])
  {
    if s == [] then []
    else (if IsCurrencyMark(s[0]) then [] else [s[0]]) + StripCurrency(s[1..])
  }

  /** A text without currency marks is left as it is. */
  lemma {:induction false} StripCurrencyFixpoint(s: string)
    requires forall k :: 0 <= k < |s| ==> !IsCurrencyMark(s[k])
    ensures StripCurrency(s) == s
  {
    if s != [] {
      StripCurrencyFixpoint(s[1..]);
    }
  }

  lemma StripCurrencyIdempotent(s: string)
    ensures StripCurrency(StripCurrency(s)) == StripCurrency(s)
  {
    StripCurrencyFixpoint(StripCurrency(s));
  }

  /** Stripping works character by character: it distributes over concatenation. */
  lemma {:induction false} StripCurrencyAppend(a: string, b: string)
    ensures StripCurrency(a + b) == StripCurrency(a) + StripCurrency(b)
  {
    if a == [] {
      assert a + b == b;
    } else {
      assert (a + b)[0] == a[0] && (a + b)[1..] == a[1..] + b;
      StripCurrencyAppend(a[1..], b);
    }
  }

  /** Every character that is not a currency mark keeps its number of occurrences. */
  lemma {:induction false} StripCurrencyKeepsOthers(s: string, c: char)
    requires !IsCurrencyMark(c)
    ensures multiset(StripCurrency(s))[c] == multiset(s)[c]
  {
    if s != [] {
      StripCurrencyKeepsOthers(s[1..], c);
      assert s == [s[0]] + s[1..];
    }
  }

  /** `str.rstrip('%')`: a prefix of the text, with all and only the trailing percent signs gone. */
  function StripPercent(s: string): (r: string)
    ensures r <= s
    ensures r == [] || r[|r| - 1] != '%'
    ensures forall k :: |r| <= k < |s| ==> s[k] == '%'
  {
    TrimTrailing(s, c => c == '%')
  }

  lemma StripPercentIdempotent(s: string)
    ensures StripPercent(StripPercent(s)) == StripPercent(s)
  {
    var r := StripPercent(s);
    assert r == [] || r[|r| - 1] != '%';
  }

  // ---------------------------------------------------------------------------
  // Numeric columns

  /** A percentage cell: the text without trailing '%' parsed, divided by 100. None when `float()` rejects the text. */
  function PercentCell(v: Value, parse: string -> Option<real>): (r: Option<Value>)
    ensures v.Num? ==> r == Some(Num(v.x / 100.0))
    ensures v.Missing? ==> r == Some(Missing)
    ensures v.Text? ==> (r.None? <==> parse(StripPercent(v.s)).None?)
    ensures v.Date? ==> r.None?
    ensures r.Some? ==> r.value.Num? || r.value.Missing?
  {
    match v
    case Num(x) => Some(Num(x / 100.0))
    case Missing => Some(Missing)
    case Text(s) =>
      (match parse(StripPercent(s))
       case Some(x) => Some(Num(x / 100.0))
       case None => None)
    case Date(_) => None
  }

  /** A Unit_Price cell: the text without currency marks parsed. None when `float()` rejects the text. */
  function PriceCell(v: Value, parse: string -> Option<real>): (r: Option<Value>)
    ensures v.Num? || v.Missing? ==> r == Some(v)
    ensures v.Text? ==> (r.None? <==> parse(StripCurrency(v.s)).None?)
    ensures v.Date? ==> r.None?
    ensures r.Some? ==> r.value.Num? || r.value.Missing?
  {
    match v
    case Num(_) => Some(v)
    case Missing => Some(Missing)
    case Text(s) =>
      (match parse(StripCurrency(s))
       case Some(x) => Some(Num(x))
       case None => None)
    case Date(_) => None
  }

  /** `pd.to_numeric(errors='coerce').fillna(0)` on one cell: numbers stay, parseable texts become their number, all else 0. */
  function CoerceCell(v: Value, parse: string -> Option<real>): (r: Value)
    ensures r.Num?
    ensures v.Num? ==> r == v
  {
    match v
    case Num(_) => v
    case Text(s) => (match parse(s) case Some(x) => Num(x) case None => Num(0.0))
    case _ => Num(0.0)
  }

  /** A text `float()` accepts becomes its number; any other non-number cell becomes 0. */
  lemma CoerceCellParsed(v: Value, parse: string -> Option<real>)
    ensures v.Text? && parse(v.s).Some? ==> CoerceCell(v, parse) == Num(parse(v.s).value)
    ensures !v.Num? && !(v.Text? && parse(v.s).Some?) ==> CoerceCell(v, parse) == Num(0.0)
  {
  }

  /** Applies a cell transform that may fail to column `c`; the first failing cell raises ValueError. */
  function ConvertColumn(t: Table, c: string, f: Value -> Option<Value>): (r: Result<Table>)
    ensures r.Err? <==> exists i :: 0 <= i < |t.rows| && f(Cell(t.rows[i], c)).None?
    ensures r.Ok? ==> Names(r.value.columns) == Names(t.columns) && |r.value.rows| == |t.rows|
    ensures r.Ok? ==> forall i :: 0 <= i < |t.rows| ==>
      r.value.rows[i] == t.rows[i][c := f(Cell(t.rows[i], c)).value]
  {
    if exists i :: 0 <= i < |t.rows| && f(Cell(t.rows[i], c)).None? then
      Err(ValueError("could not convert string to float"))
    else
      Ok(MapColumn(t, c, v => if f(v).Some? then f(v).value else Missing, Numeric))
  }

  /** The columns `clean_numeric_columns` coerces to numbers. */
  const CoercedColumns: seq<string> := ["Stock_Quantity", "Reorder_Level", "Sales_Volume", "Reorder_Quantity"]

  /** The percentage and Unit_Price steps of `clean_numeric_columns`; an unparseable text raises ValueError. */
  function CleanPercentAndPrice(t: Table, parse: string -> Option<real>): (r: Result<Table>)
    ensures r.Err? <==>
      (Has(t, "percentage") && exists i :: 0 <= i < |t.rows| && PercentCell(Cell(t.rows[i], "percentage"), parse).None?)
      || (Has(t, "Unit_Price") && exists i :: 0 <= i < |t.rows| && PriceCell(Cell(t.rows[i], "Unit_Price"), parse).None?)
    ensures r.Ok? ==> Names(r.value.columns) == Names(t.columns) && |r.value.rows| == |t.rows|
    ensures r.Ok? ==> forall c, i :: c != "percentage" && c != "Unit_Price" && 0 <= i < |t.rows| ==>
      Cell(r.value.rows[i], c) == Cell(t.rows[i], c)
    ensures r.Ok? && Has(t, "percentage") ==> forall i :: 0 <= i < |t.rows| ==>
      PercentCell(Cell(t.rows[i], "percentage"), parse) == Some(Cell(r.value.rows[i], "percentage"))
    ensures r.Ok? && Has(t, "Unit_Price") ==> forall i :: 0 <= i < |t.rows| ==>
      PriceCell(Cell(t.rows[i], "Unit_Price"), parse) == Some(Cell(r.value.rows[i], "Unit_Price"))
  {
    var p := ConvertIfPresent(t, "percentage", v => PercentCell(v, parse));
    if p.Err? then p
    else
      assert Has(p.value, "Unit_Price") <==> Has(t, "Unit_Price");
      assert forall i :: 0 <= i < |t.rows| ==> Cell(p.value.rows[i], "Unit_Price") == Cell(t.rows[i], "Unit_Price");
      ConvertIfPresent(p.value, "Unit_Price", v => PriceCell(v, parse))
  }

  /** `if c in df.columns:` around a conversion of column `c`; every other column is kept. */
  function ConvertIfPresent(t: Table, c: string, f: Value -> Option<Value>): (r: Result<Table>)
    ensures r.Err? <==> Has(t, c) && exists i :: 0 <= i < |t.rows| && f(Cell(t.rows[i], c)).None?
    ensures r.Ok? ==> Names(r.value.columns) == Names(t.columns) && |r.value.rows| == |t.rows|
    ensures r.Ok? ==> forall d, i :: d != c && 0 <= i < |t.rows| ==> Cell(r.value.rows[i], d) == Cell(t.rows[i], d)
    ensures r.Ok? && Has(t, c) ==> forall i :: 0 <= i < |t.rows| ==>
      Cell(r.value.rows[i], c) == f(Cell(t.rows[i], c)).value
  {
    if Has(t, c) then ConvertColumn(t, c, f) else Ok(t)
  }

  /** The loop of `clean_numeric_columns` over the quantity columns: every present one gets a number in every cell. */
  method CoerceColumns(t: Table, cols: seq<string>, parse: string -> Option<real>) returns (r: Table)
    ensures Names(r.columns) == Names(t.columns) && |r.rows| == |t.rows|
    ensures forall c, i :: c in cols && Has(t, c) && 0 <= i < |t.rows| ==>
      Cell(r.rows[i], c) == CoerceCell(Cell(t.rows[i], c), parse)
    ensures forall c, i :: (c !in cols || !Has(t, c)) && 0 <= i < |t.rows| ==> Cell(r.rows[i], c) == Cell(t.rows[i], c)
  {
    r := t;
    var k := 0;
    while k < |cols|
      invariant 0 <= k <= |cols|
      invariant Names(r.columns) == Names(t.columns) && |r.rows| == |t.rows|
      invariant forall c, i :: c in cols[..k] && Has(t, c) && 0 <= i < |t.rows| ==>
        Cell(r.rows[i], c) == CoerceCell(Cell(t.rows[i], c), parse)
      invariant forall c, i :: (c !in cols[..k] || !Has(t, c)) && 0 <= i < |t.rows| ==> Cell(r.rows[i], c) == Cell(t.rows[i], c)
    {
      var col := cols[k];
      if Has(r, col) {
        r := MapColumn(r, col, v => CoerceCell(v, parse), Numeric);
      }
      assert cols[..k + 1] == cols[..k] + [col];
      k := k + 1;
    }
    assert cols[..k] == cols;
  }

  /** Every present column of `cols` in `t` holds, in `r`, the number each of its cells coerces to (`CoerceCell` always gives a number). */
  ghost predicate Coerced(t: Table, r: Table, cols: seq<string>, parse: string -> Option<real>)
    requires |r.rows| == |t.rows|
  {
    forall c, i :: c in cols && Has(t, c) && 0 <= i < |t.rows| ==>
      Cell(r.rows[i], c) == CoerceCell(Cell(t.rows[i], c), parse)
  }

  /**
   * `clean_numeric_columns`: percentage and Unit_Price are stripped and parsed (an unparseable
   * text raises), then each present quantity column holds a number in every cell.
   */
  method CleanNumericColumns(t: Table, parse: string -> Option<real>) returns (res: Result<Table>)
    ensures res.Err? <==> CleanPercentAndPrice(t, parse).Err?
    ensures res.Ok? ==> Names(res.value.columns) == Names(t.columns) && |res.value.rows| == |t.rows|
    ensures res.Ok? ==> Coerced(t, res.value, CoercedColumns, parse)
    ensures res.Ok? && Has(t, "percentage") ==> forall i :: 0 <= i < |t.rows| ==>
      PercentCell(Cell(t.rows[i], "percentage"), parse) == Some(Cell(res.value.rows[i], "percentage"))
    ensures res.Ok? && Has(t, "Unit_Price") ==> forall i :: 0 <= i < |t.rows| ==>
      PriceCell(Cell(t.rows[i], "Unit_Price"), parse) == Some(Cell(res.value.rows[i], "Unit_Price"))
    ensures res.Ok? ==> forall c, i :: Untouched(t, c) && 0 <= i < |t.rows| ==>
      Cell(res.value.rows[i], c) == Cell(t.rows[i], c)
  {
    var p := CleanPercentAndPrice(t, parse);
    if p.Err? {
      return p;
    }
    var r := CoerceColumns(p.value, CoercedColumns, parse);
    KeptAfterPriceStep(t, p.value, r, parse);
    res := Ok(r);
  }

  /** The quantity loop keeps the converted percentage and Unit_Price cells and every untouched column. */
  lemma KeptAfterPriceStep(t: Table, p: Table, r: Table, parse: string -> Option<real>)
    requires CleanPercentAndPrice(t, parse) == Ok(p)
    requires Names(r.columns) == Names(p.columns) && |r.rows| == |p.rows|
    requires forall c, i :: c in CoercedColumns && Has(p, c) && 0 <= i < |p.rows| ==>
      Cell(r.rows[i], c) == CoerceCell(Cell(p.rows[i], c), parse)
    requires forall c, i :: (c !in CoercedColumns || !Has(p, c)) && 0 <= i < |p.rows| ==>
      Cell(r.rows[i], c) == Cell(p.rows[i], c)
    ensures Names(r.columns) == Names(t.columns) && |r.rows| == |t.rows|
    ensures Coerced(t, r, CoercedColumns, parse)
    ensures Has(t, "percentage") ==> forall i :: 0 <= i < |t.rows| ==>
      PercentCell(Cell(t.rows[i], "percentage"), parse) == Some(Cell(r.rows[i], "percentage"))
    ensures Has(t, "Unit_Price") ==> forall i :: 0 <= i < |t.rows| ==>
      PriceCell(Cell(t.rows[i], "Unit_Price"), parse) == Some(Cell(r.rows[i], "Unit_Price"))
    ensures forall c, i :: Untouched(t, c) && 0 <= i < |t.rows| ==> Cell(r.rows[i], c) == Cell(t.rows[i], c)
  {
    assert "percentage" !in CoercedColumns && "Unit_Price" !in CoercedColumns;
    assert forall c :: Has(p, c) <==> Has(t, c);
    CoercedAfterPriceStep(t, p, r, CoercedColumns, parse);
  }

  /** A column `clean_numeric_columns` leaves alone: neither percentage, Unit_Price nor a present quantity column. */
  predicate Untouched(t: Table, c: string) {
    c != "percentage" && c != "Unit_Price" && (c !in CoercedColumns || !Has(t, c))
  }

  lemma CoercedAfterPriceStep(t: Table, p: Table, r: Table, cols: seq<string>, parse: string -> Option<real>)
    requires "percentage" !in cols && "Unit_Price" !in cols
    requires Names(p.columns) == Names(t.columns) && |p.rows| == |t.rows| && |r.rows| == |t.rows|
    requires forall c, i :: c != "percentage" && c != "Unit_Price" && 0 <= i < |t.rows| ==>
      Cell(p.rows[i], c) == Cell(t.rows[i], c)
    requires forall c, i :: c in cols && Has(p, c) && 0 <= i < |p.rows| ==>
      Cell(r.rows[i], c) == CoerceCell(Cell(p.rows[i], c), parse)
    ensures Coerced(t, r, cols, parse)
  {
    forall c, i | c in cols && Has(t, c) && 0 <= i < |t.rows|
      ensures Cell(r.rows[i], c) == CoerceCell(Cell(t.rows[i], c), parse)
    {
      assert Has(p, c);
      assert Cell(p.rows[i], c) == Cell(t.rows[i], c);
    }
  }

  // ---------------------------------------------------------------------------
  // Derived metrics

  /**
   * Days_Of_Inventory = stock / sales, where an infinite quotient (non-zero stock, zero sales)
   * is replaced by 0; 0 / 0 is NaN and stays missing.
   */
  function DaysOfInventory(stock: Value, sales: Value): (r: Value)
    ensures stock.Num? && sales.Num? && sales.x != 0.0 ==> r.Num? && r.x * sales.x == stock.x
    ensures stock.Num? && sales.Num? && sales.x == 0.0 ==> (r == Num(0.0) <==> stock.x != 0.0)
    ensures stock.Num? && sales.Num? && sales.x == 0.0 && stock.x == 0.0 ==> r.Missing?
    ensures !(stock.Num? && sales.Num?) ==> r.Missing?
  {
    if stock.Num? && sales.Num? && sales.x == 0.0 && stock.x != 0.0 then Num(0.0)
    else Ratio(stock, sales)
  }

  /** `df[c] = f(df[a], df[b])` cell by cell, done only when both input columns exist. */
  function Derive(t: Table, c: string, a: string, b: string, f: (Value, Value) -> Value): (r: Table)
    ensures |r.rows| == |t.rows|
    ensures !(Has(t, a) && Has(t, b)) ==> r == t
    ensures Has(t, a) && Has(t, b) ==> Has(r, c)
    ensures forall d :: Has(t, d) ==> Has(r, d)
    ensures forall i :: 0 <= i < |t.rows| && Has(t, a) && Has(t, b) ==>
      Cell(r.rows[i], c) == f(Cell(t.rows[i], a), Cell(t.rows[i], b))
    ensures forall i, d :: 0 <= i < |t.rows| && d != c ==> Cell(r.rows[i], d) == Cell(t.rows[i], d)
  {
    if Has(t, a) && Has(t, b) then
      SetColumn(t, c, Numeric, seq(|t.rows|, i requires 0 <= i < |t.rows| => f(Cell(t.rows[i], a), Cell(t.rows[i], b))))
    else t
  }

  /**
   * `calculate_additional_metrics`: Days_Of_Inventory, Inventory_Value and Inventory_Turnover_Rate,
   * each added only when its inputs exist. `MetricsRow` states the cells.
   */
  function CalculateAdditionalMetrics(t: Table): (r: Table)
    ensures |r.rows| == |t.rows|
    ensures forall c :: Has(t, c) ==> Has(r, c)
    ensures Has(t, "Stock_Quantity") && Has(t, "Sales_Volume") ==> Has(r, "Days_Of_Inventory") && Has(r, "Inventory_Turnover_Rate")
    ensures Has(t, "Stock_Quantity") && Has(t, "Unit_Price") ==> Has(r, "Inventory_Value")
  {
    var t1 := Derive(t, "Days_Of_Inventory", "Stock_Quantity", "Sales_Volume", DaysOfInventory);
    var t2 := Derive(t1, "Inventory_Value", "Stock_Quantity", "Unit_Price", Times);
    Derive(t2, "Inventory_Turnover_Rate", "Sales_Volume", "Stock_Quantity", Ratio)
  }

  /**
   * Row `i` after the derived metrics: with both inputs present, Days_Of_Inventory follows
   * `DaysOfInventory`, Inventory_Value is stock times price and Inventory_Turnover_Rate is
   * sales over stock; every other cell is kept.
   */
  lemma MetricsRow(t: Table, i: nat)
    requires i < |t.rows|
    ensures Has(t, "Stock_Quantity") && Has(t, "Sales_Volume") ==>
      Cell(CalculateAdditionalMetrics(t).rows[i], "Days_Of_Inventory")
        == DaysOfInventory(Cell(t.rows[i], "Stock_Quantity"), Cell(t.rows[i], "Sales_Volume"))
      && Cell(CalculateAdditionalMetrics(t).rows[i], "Inventory_Turnover_Rate")
        == Ratio(Cell(t.rows[i], "Sales_Volume"), Cell(t.rows[i], "Stock_Quantity"))
    ensures Has(t, "Stock_Quantity") && Has(t, "Unit_Price") ==>
      Cell(CalculateAdditionalMetrics(t).rows[i], "Inventory_Value")
        == Times(Cell(t.rows[i], "Stock_Quantity"), Cell(t.rows[i], "Unit_Price"))
    ensures forall d :: d != "Days_Of_Inventory" && d != "Inventory_Value" && d != "Inventory_Turnover_Rate" ==>
      Cell(CalculateAdditionalMetrics(t).rows[i], d) == Cell(t.rows[i], d)
  {
    var t1 := Derive(t, "Days_Of_Inventory", "Stock_Quantity", "Sales_Volume", DaysOfInventory);
    var t2 := Derive(t1, "Inventory_Value", "Stock_Quantity", "Unit_Price", Times);
    var r := Derive(t2, "Inventory_Turnover_Rate", "Sales_Volume", "Stock_Quantity", Ratio);
    assert r == CalculateAdditionalMetrics(t);
    DeriveRow(t, "Days_Of_Inventory", "Stock_Quantity", "Sales_Volume", DaysOfInventory, i);
    DeriveRow(t1, "Inventory_Value", "Stock_Quantity", "Unit_Price", Times, i);
    DeriveRow(t2, "Inventory_Turnover_Rate", "Sales_Volume", "Stock_Quantity", Ratio, i);
  }

  /** Row `i` of a derived table: the new cell from the two input cells, every other cell kept. */
  lemma DeriveRow(t: Table, c: string, a: string, b: string, f: (Value, Value) -> Value, i: nat)
    requires i < |t.rows|
    ensures Has(t, a) && Has(t, b) ==> Has(Derive(t, c, a, b, f), a) && Has(Derive(t, c, a, b, f), b)
    ensures Has(t, a) && Has(t, b) ==> Cell(Derive(t, c, a, b, f).rows[i], c) == f(Cell(t.rows[i], a), Cell(t.rows[i], b))
    ensures forall d :: d != c ==> Cell(Derive(t, c, a, b, f).rows[i], d) == Cell(t.rows[i], d)
  {
  }
}
