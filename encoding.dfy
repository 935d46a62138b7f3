/**
 * Feature preparation for the demand model: the numeric/categorical split of the input
 * columns, date-to-seconds conversion, the one-hot vocabulary and its indicator columns,
 * and the feature frame the regressor is given.
 */
module Encoding {
  import opened Wrappers
  import opened Values
  import opened Tables

  // ---------------------------------------------------------------------------
  // Numeric / categorical split

  /** `select_dtypes(include=np.number)`: the numeric columns, in table order. */
  function NumericFeatures(cols: seq<Column>): (r: seq<string>)
    ensures forall c :: c in r ==> c in Names(cols)
  {
    if cols == [] then []
    else (if cols[0].kind == Numeric then [cols[0].name] else []) + NumericFeatures(cols[1..])
  }

  /** `select_dtypes(exclude=np.number)`: every other column (dates and objects), in table order. */
  function CategoricalFeatures(cols: seq<Column>): (r: seq<string>)
    ensures forall c :: c in r ==> c in Names(cols)
  {
    if cols == [] then []
    else (if cols[0].kind != Numeric then [cols[0].name] else []) + CategoricalFeatures(cols[1..])
  }

  lemma {:induction false} SplitKeepsOrder(cols: seq<Column>)
    ensures Subsequence(NumericFeatures(cols), Names(cols))
    ensures Subsequence(CategoricalFeatures(cols), Names(cols))
  {
    if cols != [] {
      SplitKeepsOrder(cols[1..]);
      var b := Names(cols);
      assert b[1..] == Names(cols[1..]);
      var n := NumericFeatures(cols);
      if cols[0].kind == Numeric {
        assert n[0] == b[0] && n[1..] == NumericFeatures(cols[1..]);
      } else {
        assert n == NumericFeatures(cols[1..]);
      }
      var c := CategoricalFeatures(cols);
      if cols[0].kind != Numeric {
        assert c[0] == b[0] && c[1..] == CategoricalFeatures(cols[1..]);
      } else {
        assert c == CategoricalFeatures(cols[1..]);
      }
    }
  }

  /**
   * The split is a partition: every column lands in exactly one list, numeric columns in the
   * first and date or object columns in the second, each list in table order.
   */
  lemma {:induction false} SplitFeatures(cols: seq<Column>)
    requires forall i, j :: 0 <= i < j < |cols| ==> cols[i].name != cols[j].name
    ensures Subsequence(NumericFeatures(cols), Names(cols)) && Subsequence(CategoricalFeatures(cols), Names(cols))
    ensures forall c :: c in Names(cols) <==> c in NumericFeatures(cols) || c in CategoricalFeatures(cols)
    ensures forall c :: !(c in NumericFeatures(cols) && c in CategoricalFeatures(cols))
    ensures forall c :: c in NumericFeatures(cols) ==> KindOf(cols, c) == Numeric
    ensures forall c :: c in CategoricalFeatures(cols) ==> KindOf(cols, c) != Numeric
  {
    SplitKeepsOrder(cols);
    if cols != [] {
      SplitFeatures(cols[1..]);
      assert Names(cols) == [cols[0].name] + Names(cols[1..]);
      assert cols[0].name !in Names(cols[1..]) by {
        forall j | 0 <= j < |cols[1..]| ensures Names(cols[1..])[j] != cols[0].name {
          assert cols[1..][j] == cols[j + 1];
        }
      }
    }
  }

  // ---------------------------------------------------------------------------
  // Dates

  /**
   * `astype(np.int64) // 10**9` on a datetime cell: seconds since the epoch. NaT is the
   * smallest 64-bit integer, which floor-divides to -9223372037.
   */
  function DateSeconds(v: Value): (r: Value)
    ensures r.Num?
    ensures v.Date? ==> r.x == (v.day * 86400) as real
    ensures !v.Date? ==> r.x == -9223372037.0
  {
    match v
    case Date(d) => Num((d * 86400) as real)
    case _ => Num(-9223372037.0)
  }

  /** A cell of `x` after the date columns were converted. */
  function Converted(x: Table, row: Row, c: string): Value {
    if Has(x, c) && KindOf(x.columns, c) == DateTime then DateSeconds(Cell(row, c)) else Cell(row, c)
  }

  /** Column `c` of the given rows of `x`, converted. */
  function ConvertedValues(x: Table, rows: seq<Row>, c: string): (r: seq<Value>)
    ensures |r| == |rows| && forall i :: 0 <= i < |rows| ==> r[i] == Converted(x, rows[i], c)
  {
    if rows == [] then []
    else
      var rest := ConvertedValues(x, rows[1..], c);
      assert forall i :: 1 <= i < |rows| ==> rows[1..][i - 1] == rows[i];
      [Converted(x, rows[0], c)] + rest
  }

  // ---------------------------------------------------------------------------
  // One-hot vocabulary

  datatype FeatureName = Plain(name: string) | Indicator(column: string, category: Value)

  /** The categories fitted for one categorical column, in ascending order. */
  datatype Vocabulary = Vocabulary(column: string, categories: seq<Value>)

  /** A fitted `OneHotEncoder(handle_unknown='ignore')`: one vocabulary per categorical column. */
  type Encoder = seq<Vocabulary>

  function Columns(enc: Encoder): (r: seq<string>)
    ensures |r| == |enc|
    ensures forall i :: 0 <= i < |enc| ==> r[i] == enc[i].column
  {
    if enc == [] then [] else [enc[0].column] + Columns(enc[1..])
  }

  /** Each column's categories are the distinct converted values seen in training, sorted. */
  function Fit(x: Table, cats: seq<string>): (enc: Encoder)
    ensures Columns(enc) == cats
    ensures forall k :: 0 <= k < |cats| ==> enc[k].categories == SortedDistinct(ConvertedValues(x, x.rows, cats[k]))
  {
    if cats == [] then []
    else [Vocabulary(cats[0], SortedDistinct(ConvertedValues(x, x.rows, cats[0])))] + Fit(x, cats[1..])
  }

  /** The indicator columns of one vocabulary, one per category, in category order. */
  function VocabularyNames(v: Vocabulary): (r: seq<FeatureName>)
    ensures |r| == |v.categories|
    ensures forall j :: 0 <= j < |r| ==> r[j] == Indicator(v.column, v.categories[j])
  {
    seq(|v.categories|, j requires 0 <= j < |v.categories| => Indicator(v.column, v.categories[j]))
  }

  /** `get_feature_names_out`: the indicator columns of every vocabulary, column by column. */
  function IndicatorNames(enc: Encoder): (r: seq<FeatureName>)
    ensures forall n :: n in r ==> n.Indicator?
    ensures forall n :: n in r <==> exists k :: 0 <= k < |enc| && n in VocabularyNames(enc[k])
  {
    if enc == [] then []
    else
      var rest := IndicatorNames(enc[1..]);
      forall n, k | 1 <= k < |enc| && n in VocabularyNames(enc[k])
        ensures n in rest
      {
        assert enc[1..][k - 1] == enc[k];
      }
      forall n | n in rest
        ensures exists k :: 1 <= k < |enc| && n in VocabularyNames(enc[k])
      {
        var k :| 0 <= k < |enc[1..]| && n in VocabularyNames(enc[1..][k]);
        assert enc[1..][k] == enc[k + 1];
      }
      VocabularyNames(enc[0]) + rest
  }

  /** The category set of `column`, if the encoder has a vocabulary for it (the first one). */
  function CategoriesOf(enc: Encoder, column: string): (r: Option<seq<Value>>)
    ensures r.None? <==> column !in Columns(enc)
  {
    if enc == [] then None
    else if enc[0].column == column then Some(enc[0].categories)
    else CategoriesOf(enc[1..], column)
  }

  /** Every vocabulary has strictly increasing categories and the columns are distinct. */
  ghost predicate EncoderOk(enc: Encoder) {
    (forall k :: 0 <= k < |enc| ==> StrictlyIncreasing(enc[k].categories))
    && Distinct(Columns(enc))
  }

  lemma FitOk(x: Table, cats: seq<string>)
    requires Distinct(cats)
    ensures EncoderOk(Fit(x, cats))
  {
    var enc := Fit(x, cats);
    forall k | 0 <= k < |enc| ensures StrictlyIncreasing(enc[k].categories) {
      SortedDistinctCorrect(ConvertedValues(x, x.rows, cats[k]));
    }
    assert Columns(enc) == cats;
  }

  /** An indicator names a column of the encoder and one of that column's categories. */
  lemma {:induction false} IndicatorNamesIff(enc: Encoder, c: string, v: Value)
    requires EncoderOk(enc)
    ensures Indicator(c, v) in IndicatorNames(enc) <==> CategoriesOf(enc, c).Some? && v in CategoriesOf(enc, c).value
  {
    if enc != [] {
      DistinctTail(Columns(enc));
      IndicatorNamesIff(enc[1..], c, v);
      assert IndicatorNames(enc) == VocabularyNames(enc[0]) + IndicatorNames(enc[1..]);
      if enc[0].column == c {
        forall n | n in IndicatorNames(enc[1..]) ensures n != Indicator(c, v) {
          var k :| 0 <= k < |enc[1..]| && n in VocabularyNames(enc[1..][k]);
          var j :| 0 <= j < |VocabularyNames(enc[1..][k])| && VocabularyNames(enc[1..][k])[j] == n;
          assert n.column == enc[1..][k].column == Columns(enc[1..])[k];
        }
        if v in enc[0].categories {
          var j :| 0 <= j < |enc[0].categories| && enc[0].categories[j] == v;
          assert VocabularyNames(enc[0])[j] == Indicator(c, v);
        }
      } else {
        forall n | n in VocabularyNames(enc[0]) ensures n != Indicator(c, v) {
        }
      }
    }
  }

  /** The feature columns of a fitted model: the numeric columns, then the indicator columns. */
  function FeatureColumnsOf(numeric: seq<string>, enc: Encoder): (r: seq<FeatureName>)
    ensures |r| == |numeric| + |IndicatorNames(enc)|
    ensures forall i :: 0 <= i < |numeric| ==> r[i] == Plain(numeric[i])
    ensures r[|numeric|..] == IndicatorNames(enc)
  {
    Plains(numeric) + IndicatorNames(enc)
  }

  function Plains(names: seq<string>): (r: seq<FeatureName>)
    ensures |r| == |names|
    ensures forall i :: 0 <= i < |names| ==> r[i] == Plain(names[i])
  {
    seq(|names|, i requires 0 <= i < |names| => Plain(names[i]))
  }

  /** The entries at two positions `i < j` of `s` differ. */
  ghost predicate Apart<T>(s: seq<T>, i: int, j: int) {
    0 <= i < j < |s| ==> s[i] != s[j]
  }

  /**
   * No entry repeats. Stated through `Apart` so that the pairs are only considered where a
   * proof names them.
   */
  ghost predicate Distinct<T>(s: seq<T>) {
    forall i, j :: Apart(s, i, j)
  }

  lemma DistinctTail<T>(s: seq<T>)
    requires Distinct(s) && s != []
    ensures Distinct(s[1..]) && s[0] !in s[1..]
  {
    forall i, j ensures Apart(s[1..], i, j) {
      assert Apart(s, i + 1, j + 1);
    }
    forall j | 0 <= j < |s[1..]| ensures s[1..][j] != s[0] {
      assert Apart(s, 0, j + 1);
    }
  }

  lemma DistinctAppend<T>(a: seq<T>, b: seq<T>)
    requires Distinct(a) && Distinct(b)
    requires forall x :: x in a ==> x !in b
    ensures Distinct(a + b)
  {
    forall i, j ensures Apart(a + b, i, j) {
      if !(0 <= i < j < |a + b|) {
      } else if j < |a| {
        assert Apart(a, i, j);
      } else if i >= |a| {
        assert Apart(b, i - |a|, j - |a|);
        assert (a + b)[i] == b[i - |a|] && (a + b)[j] == b[j - |a|];
      } else {
        assert (a + b)[i] in a && (a + b)[j] in b;
      }
    }
  }

  /** Indicator columns never repeat: a vocabulary's categories are distinct and so are its columns. */
  lemma {:induction false} IndicatorNamesDistinct(enc: Encoder)
    requires EncoderOk(enc)
    ensures Distinct(IndicatorNames(enc))
    ensures forall n :: n in IndicatorNames(enc) ==> n.column in Columns(enc)
  {
    if enc != [] {
      DistinctTail(Columns(enc));
      IndicatorNamesDistinct(enc[1..]);
      var head := VocabularyNames(enc[0]);
      assert Distinct(head) by {
        forall i, j | 0 <= i < j < |head| ensures head[i] != head[j] {
          if enc[0].categories[i] == enc[0].categories[j] {
            StrictlyIncreasingDistinct(enc[0].categories, i, j);
          }
        }
      }
      DistinctAppend(head, IndicatorNames(enc[1..]));
      forall n | n in IndicatorNames(enc) ensures n.column in Columns(enc) {
        assert Columns(enc) == [enc[0].column] + Columns(enc[1..]);
      }
    }
  }

  /** The feature columns of a model are distinct when its numeric columns are. */
  lemma FeatureColumnsDistinct(numeric: seq<string>, enc: Encoder)
    requires Distinct(numeric) && EncoderOk(enc)
    ensures Distinct(FeatureColumnsOf(numeric, enc))
  {
    IndicatorNamesDistinct(enc);
    var p := Plains(numeric);
    forall i, j ensures Apart(p, i, j) {
      assert Apart(numeric, i, j);
    }
    DistinctAppend(p, IndicatorNames(enc));
  }

  /** A one-hot indicator cell: 1 for the matching category, else 0. */
  function Hot(cell: Value, category: Value): (r: Value)
    ensures r == Num(1.0) <==> cell == category
    ensures r == Num(0.0) <==> cell != category
  {
    if cell == category then Num(1.0) else Num(0.0)
  }

  /**
   * One-hot with `handle_unknown='ignore'`: against strictly increasing categories, a seen
   * value lights exactly one indicator and an unseen value lights none.
   */
  lemma OneHot(categories: seq<Value>, cell: Value)
    requires StrictlyIncreasing(categories)
    ensures cell !in categories ==> forall j :: 0 <= j < |categories| ==> Hot(cell, categories[j]) == Num(0.0)
    ensures cell in categories ==> exists j :: (0 <= j < |categories| && Hot(cell, categories[j]) == Num(1.0)
      && forall k :: 0 <= k < |categories| && k != j ==> Hot(cell, categories[k]) == Num(0.0))
  {
    if cell in categories {
      var j :| 0 <= j < |categories| && categories[j] == cell;
      forall k | 0 <= k < |categories| && k != j ensures Hot(cell, categories[k]) == Num(0.0) {
        if categories[k] == cell {
          StrictlyIncreasingDistinct(categories, j, k);
        }
      }
    }
  }

  // ---------------------------------------------------------------------------
  // Feature frames

  /** A frame of named feature columns, stored column by column. */
  datatype Frame = Frame(names: seq<FeatureName>, cols: map<FeatureName, seq<Value>>, height: nat)

  /** Every named column is stored and has one cell per row. */
  ghost predicate FrameOk(f: Frame) {
    forall n :: n in f.names ==> n in f.cols && |f.cols[n]| == f.height
  }

  /** The feature row `i`, in column order: what the regressor is given for one input row. */
  function FrameRow(f: Frame, i: nat): (r: seq<Value>)
    requires FrameOk(f) && i < f.height
    ensures |r| == |f.names|
    ensures forall j :: 0 <= j < |f.names| ==> r[j] == f.cols[f.names[j]][i]
  {
    seq(|f.names|, j requires 0 <= j < |f.names| => f.cols[f.names[j]][i])
  }

  function Zeros(n: nat): (r: seq<Value>)
    ensures |r| == n && forall i :: 0 <= i < n ==> r[i] == Num(0.0)
  {
    seq(n, _ => Num(0.0))
  }

  /**
   * The cell an aligned frame holds for feature `n` and input row `row`: a kept column's
   * converted value, 0 for an absent or categorical plain column, and for an indicator the
   * one-hot test against its category when the encoder knows that category, else 0.
   */
  function AlignedCell(enc: Encoder, cats: seq<string>, x: Table, n: FeatureName, row: Row): Value {
    match n
    case Plain(c) => if Has(x, c) && c !in cats then Converted(x, row, c) else Num(0.0)
    case Indicator(c, v) =>
      if CategoriesOf(enc, c).Some? && v in CategoriesOf(enc, c).value then Hot(Converted(x, row, c), v) else Num(0.0)
  }

  /** The feature row a fitted model is given for input row `row`: the aligned cell of each feature column. */
  function AlignedRow(enc: Encoder, cats: seq<string>, names: seq<FeatureName>, x: Table, row: Row): (r: seq<Value>)
    ensures |r| == |names|
    ensures forall j :: 0 <= j < |names| ==> r[j] == AlignedCell(enc, cats, x, names[j], row)
  {
    seq(|names|, j requires 0 <= j < |names| => AlignedCell(enc, cats, x, names[j], row))
  }

  /** Every cell of `f` is the aligned cell of its feature for the input row of the same index. */
  ghost predicate Aligned(f: Frame, enc: Encoder, cats: seq<string>, x: Table) {
    FrameOk(f) && f.height == |x.rows|
    && forall n, i :: n in f.names && 0 <= i < f.height ==> f.cols[n][i] == AlignedCell(enc, cats, x, n, x.rows[i])
  }

  lemma AlignedRows(f: Frame, enc: Encoder, cats: seq<string>, x: Table, i: nat)
    requires Aligned(f, enc, cats, x) && i < f.height
    ensures FrameRow(f, i) == AlignedRow(enc, cats, f.names, x, x.rows[i])
  {
  }

  /** The names of `names` that are not in `cats`, in order: what `drop(columns=cats)` keeps. */
  function Kept(names: seq<string>, cats: seq<string>): (r: seq<string>)
    ensures forall c :: c in r <==> c in names && c !in cats
  {
    if names == [] then []
    else (if names[0] in cats then [] else [names[0]]) + Kept(names[1..], cats)
  }

  /** For the split of a table's columns, dropping the categorical ones leaves the numeric ones. */
  lemma {:induction false} KeptNumeric(cols: seq<Column>, cats: seq<string>)
    requires forall i :: 0 <= i < |cols| ==> (cols[i].name in cats <==> cols[i].kind != Numeric)
    ensures Kept(Names(cols), cats) == NumericFeatures(cols)
  {
    if cols != [] {
      KeptNumeric(cols[1..], cats);
      assert Names(cols)[1..] == Names(cols[1..]);
    }
  }

  lemma SplitDistinct(cols: seq<Column>)
    requires forall i, j :: 0 <= i < j < |cols| ==> cols[i].name != cols[j].name
    ensures Distinct(NumericFeatures(cols)) && Distinct(CategoricalFeatures(cols))
    ensures Kept(Names(cols), CategoricalFeatures(cols)) == NumericFeatures(cols)
  {
    SplitFeatures(cols);
    SplitDistinctRec(cols);
    forall i | 0 <= i < |cols| ensures (cols[i].name in CategoricalFeatures(cols) <==> cols[i].kind != Numeric) {
      KindOfAt(cols, i);
      assert cols[i].name in Names(cols);
    }
    KeptNumeric(cols, CategoricalFeatures(cols));
  }

  lemma {:induction false} SplitDistinctRec(cols: seq<Column>)
    requires forall i, j :: 0 <= i < j < |cols| ==> cols[i].name != cols[j].name
    ensures Distinct(NumericFeatures(cols)) && Distinct(CategoricalFeatures(cols))
  {
    if cols != [] {
      SplitDistinctRec(cols[1..]);
      assert cols[0].name !in Names(cols[1..]) by {
        forall j | 0 <= j < |cols[1..]| ensures Names(cols[1..])[j] != cols[0].name {
          assert cols[1..][j] == cols[j + 1];
        }
      }
      var h := [cols[0].name];
      DistinctAppend(if cols[0].kind == Numeric then h else [], NumericFeatures(cols[1..]));
      DistinctAppend(if cols[0].kind != Numeric then h else [], CategoricalFeatures(cols[1..]));
    }
  }

  /** The numeric training columns the zero-fill step appends, in order. */
  function Absent(numeric: seq<string>, present: seq<FeatureName>, cats: seq<string>): (r: seq<string>)
    ensures forall c :: c in r <==> c in numeric && Plain(c) !in present && c !in cats
  {
    if numeric == [] then []
    else (if Plain(numeric[0]) !in present && numeric[0] !in cats then [numeric[0]] else [])
         + Absent(numeric[1..], present, cats)
  }

  lemma AbsentAppend(a: seq<string>, b: seq<string>, present: seq<FeatureName>, cats: seq<string>)
    ensures Absent(a + b, present, cats) == Absent(a, present, cats) + Absent(b, present, cats)
  {
    if a == [] {
      assert a + b == b;
    } else {
      assert (a + b)[0] == a[0] && (a + b)[1..] == a[1..] + b;
      AbsentAppend(a[1..], b, present, cats);
    }
  }

  /** The converted values of a kept column. */
  function PlainColumn(x: Table, c: string): (r: seq<Value>)
    ensures |r| == |x.rows| && forall i :: 0 <= i < |x.rows| ==> r[i] == Converted(x, x.rows[i], c)
  {
    ConvertedValues(x, x.rows, c)
  }

  /** The indicator values of one category. */
  function IndicatorColumn(x: Table, c: string, v: Value): (r: seq<Value>)
    ensures |r| == |x.rows| && forall i :: 0 <= i < |x.rows| ==> r[i] == Hot(Converted(x, x.rows[i], c), v)
  {
    seq(|x.rows|, i requires 0 <= i < |x.rows| => Hot(Converted(x, x.rows[i], c), v))
  }

  function EncodedNames(x: Table, cats: seq<string>, enc: Encoder): seq<FeatureName> {
    Plains(Kept(Names(x.columns), cats)) + IndicatorNames(enc)
  }

  /**
   * The frame after the categorical columns were replaced: the other columns (dates as
   * seconds), followed by the encoder's indicator columns.
   */
  function EncodedFrame(x: Table, cats: seq<string>, enc: Encoder): (f: Frame)
    ensures f.names == EncodedNames(x, cats, enc) && f.height == |x.rows| && FrameOk(f)
  {
    var names := EncodedNames(x, cats, enc);
    Frame(names,
          map n | n in names :: match n
            case Plain(c) => PlainColumn(x, c)
            case Indicator(c, v) => IndicatorColumn(x, c, v),
          |x.rows|)
  }

  lemma EncodedFrameAligned(x: Table, cats: seq<string>, enc: Encoder)
    requires EncoderOk(enc)
    ensures Aligned(EncodedFrame(x, cats, enc), enc, cats, x)
  {
    var f := EncodedFrame(x, cats, enc);
    forall n, i | n in f.names && 0 <= i < f.height
      ensures f.cols[n][i] == AlignedCell(enc, cats, x, n, x.rows[i])
    {
      match n
      case Plain(c) =>
        assert n !in IndicatorNames(enc);
        assert n in Plains(Kept(Names(x.columns), cats));
        var j :| 0 <= j < |Kept(Names(x.columns), cats)| && Plains(Kept(Names(x.columns), cats))[j] == n;
        assert c in Kept(Names(x.columns), cats);
      case Indicator(c, v) =>
        assert n !in Plains(Kept(Names(x.columns), cats));
        IndicatorNamesIff(enc, c, v);
    }
  }

  lemma KeptEncoded(x: Table, cats: seq<string>, enc: Encoder, c: string)
    ensures Has(x, c) && c !in cats ==> Plain(c) in EncodedNames(x, cats, enc)
  {
    var kept := Kept(Names(x.columns), cats);
    if c in kept {
      var j :| 0 <= j < |kept| && kept[j] == c;
      assert Plains(kept)[j] == Plain(c);
    }
  }

  /** `X[col] = 0`: appends a zero column. */
  function AddZeros(f: Frame, n: FeatureName): (r: Frame)
    ensures r.names == f.names + [n] && r.height == f.height
    ensures FrameOk(f) ==> FrameOk(r)
  {
    Frame(f.names + [n], f.cols[n := Zeros(f.height)], f.height)
  }

  /** `X[available].reindex(columns=names, fill_value=0)`: exactly `names`, absent ones as zeros. */
  function Reindex(f: Frame, names: seq<FeatureName>): (r: Frame)
    requires FrameOk(f)
    ensures r.names == names && r.height == f.height && FrameOk(r)
  {
    Frame(names, map n | n in names :: if n in f.names then f.cols[n] else Zeros(f.height), f.height)
  }

  /**
   * A feature that the encoded, zero-filled frame lacks is aligned to 0: a plain column absent
   * from the input or categorical, or an indicator the encoder does not know.
   */
  lemma ReindexAligned(f: Frame, x: Table, cats: seq<string>, enc: Encoder, numeric: seq<string>, names: seq<FeatureName>)
    requires EncoderOk(enc)
    requires f.names == EncodedNames(x, cats, enc) + Plains(Absent(numeric, EncodedNames(x, cats, enc), cats))
    requires Aligned(f, enc, cats, x)
    ensures Aligned(Reindex(f, names), enc, cats, x)
  {
    var r := Reindex(f, names);
    forall n, i | n in names && n !in f.names && 0 <= i < r.height
      ensures AlignedCell(enc, cats, x, n, x.rows[i]) == Num(0.0)
    {
      match n
      case Plain(c) =>
        KeptEncoded(x, cats, enc, c);
      case Indicator(c, v) =>
        IndicatorNamesIff(enc, c, v);
        assert n !in IndicatorNames(enc) by {
          assert forall m :: m in IndicatorNames(enc) ==> m in EncodedNames(x, cats, enc);
        }
    }
  }

  /** An input category never seen in training sets every indicator of its column to 0. */
  lemma UnseenCategory(enc: Encoder, cats: seq<string>, x: Table, row: Row, c: string)
    requires CategoriesOf(enc, c).Some? && Converted(x, row, c) !in CategoriesOf(enc, c).value
    ensures forall v :: AlignedCell(enc, cats, x, Indicator(c, v), row) == Num(0.0)
  {
  }

  /** A seen category sets its own indicator to 1 and every other indicator of its column to 0. */
  lemma SeenCategory(enc: Encoder, cats: seq<string>, x: Table, row: Row, c: string)
    requires CategoriesOf(enc, c).Some? && Converted(x, row, c) in CategoriesOf(enc, c).value
    ensures AlignedCell(enc, cats, x, Indicator(c, Converted(x, row, c)), row) == Num(1.0)
    ensures forall v :: v != Converted(x, row, c) ==> AlignedCell(enc, cats, x, Indicator(c, v), row) == Num(0.0)
  {
  }

  /** One step of the zero-fill loop: adds `c` as a zero column unless it is present or categorical. */
  function FillStep(f: Frame, c: string, cats: seq<string>): Frame {
    if Plain(c) !in f.names && c !in cats then AddZeros(f, Plain(c)) else f
  }

  /** The zero-fill loop over `numeric`, in order. */
  function ZeroFill(f: Frame, numeric: seq<string>, cats: seq<string>): Frame
    decreases |numeric|
  {
    if numeric == [] then f
    else FillStep(ZeroFill(f, numeric[..|numeric| - 1], cats), numeric[|numeric| - 1], cats)
  }

  lemma PlainsAppend(a: seq<string>, b: seq<string>)
    ensures Plains(a + b) == Plains(a) + Plains(b)
  {
  }

  /** A fill step keeps the frame aligned when the column it may add is absent from the input or categorical. */
  lemma FillStepAligned(g: Frame, x: Table, cats: seq<string>, enc: Encoder, c: string)
    requires Aligned(g, enc, cats, x)
    requires Plain(c) !in g.names ==> !(Has(x, c) && c !in cats)
    ensures Aligned(FillStep(g, c, cats), enc, cats, x)
  {
    var h := FillStep(g, c, cats);
    forall n, i | n in h.names && 0 <= i < h.height
      ensures h.cols[n][i] == AlignedCell(enc, cats, x, n, x.rows[i])
    {
      if n != Plain(c) {
        assert n in g.names;
      }
    }
  }

  lemma FillStepNames(base: seq<FeatureName>, added: seq<string>, init: seq<string>, c: string, cats: seq<string>)
    requires added == Absent(init, base, cats) && c !in init
    ensures Plain(c) in base + Plains(added) <==> Plain(c) in base
    ensures var names := base + Plains(added);
      names + (if Plain(c) !in names && c !in cats then [Plain(c)] else []) == base + Plains(Absent(init + [c], base, cats))
  {
    var last := Absent([c], base, cats);
    var own: seq<string> := if Plain(c) !in base && c !in cats then [c] else [];
    assert [c][1..] == [] && Absent([c][1..], base, cats) == [];
    assert last == own + [];
    assert own + [] == own;
    assert Plains(last) == if Plain(c) !in base && c !in cats then [Plain(c)] else [];
    assert c !in added;
    assert Plain(c) !in Plains(added);
    AbsentAppend(init, [c], base, cats);
    PlainsAppend(added, last);
    assert base + Plains(added) + Plains(last) == base + (Plains(added) + Plains(last));
  }

  /** Dropping the last entry of a sequence without repeats leaves one without repeats, and without that entry. */
  lemma DistinctInit<T>(s: seq<T>)
    requires Distinct(s) && s != []
    ensures Distinct(s[..|s| - 1]) && s[|s| - 1] !in s[..|s| - 1]
  {
    var init := s[..|s| - 1];
    forall i, j ensures Apart(init, i, j) {
      assert Apart(s, i, j);
    }
    forall i | 0 <= i < |init| ensures init[i] != s[|s| - 1] {
      assert Apart(s, i, |s| - 1);
    }
  }

  /**
   * Zero-filling the encoded frame appends the absent numeric training columns once each, in
   * order, and keeps every cell aligned.
   */
  lemma {:induction false} ZeroFillAligned(x: Table, cats: seq<string>, enc: Encoder, numeric: seq<string>)
    requires EncoderOk(enc) && Distinct(numeric)
    ensures var base := EncodedNames(x, cats, enc);
      var f := ZeroFill(EncodedFrame(x, cats, enc), numeric, cats);
      f.names == base + Plains(Absent(numeric, base, cats)) && Aligned(f, enc, cats, x)
    decreases |numeric|
  {
    var base := EncodedNames(x, cats, enc);
    if numeric == [] {
      EncodedFrameAligned(x, cats, enc);
    } else {
      var init := numeric[..|numeric| - 1];
      var c := numeric[|numeric| - 1];
      DistinctInit(numeric);
      assert numeric == init + [c];
      ZeroFillAligned(x, cats, enc, init);
      var g := ZeroFill(EncodedFrame(x, cats, enc), init, cats);
      FillStepNames(base, Absent(init, base, cats), init, c, cats);
      KeptEncoded(x, cats, enc, c);
      FillStepAligned(g, x, cats, enc, c);
    }
  }

  /** When every numeric training column is present or categorical, zero-filling adds nothing. */
  lemma {:induction false} ZeroFillNothing(f: Frame, numeric: seq<string>, cats: seq<string>)
    requires forall c :: c in numeric ==> Plain(c) in f.names || c in cats
    ensures ZeroFill(f, numeric, cats) == f
    decreases |numeric|
  {
    if numeric != [] {
      assert numeric[|numeric| - 1] in numeric;
      ZeroFillNothing(f, numeric[..|numeric| - 1], cats);
    }
  }
}
