/**
 * The demand forecaster: a regressor behind a frozen feature encoding. Training fixes the
 * numeric/categorical split, the one-hot vocabulary and the ordered feature columns;
 * prediction aligns every input to exactly those columns before calling the regressor.
 */
module Forecaster {
  import opened Wrappers
  import opened Values
  import opened Tables
  import opened Encoding
  import opened Ranking

  /** A fitted regressor: a prediction per aligned feature row, and one importance per feature. */
  datatype Model = Model(predict: seq<Value> -> real, importances: seq<real>)

  /** What fitting yields: the model and its R² and mean absolute error on the held-out rows. */
  datatype Fitted = Fitted(model: Model, r2: real, mae: real)

  datatype TrainReport = TrainReport(r2: real, mae: real, featureImportance: seq<Ranked>)

  const NotTrained := "Model has not been trained yet"
  const NoCategoricalEncoder := "Model has not been trained with categorical features"
  const NoTrainingRows := "No features available for training"
  const InconsistentSamples := "Found input variables with inconsistent numbers of samples"
  const EmptyTrainSplit := "With n_samples=1, test_size=0.2 and train_size=None, the resulting train set will be empty."

  /** The regressor applied to the aligned feature row of every input row. */
  function PredictRows(predict: seq<Value> -> real, enc: Encoder, cats: seq<string>, names: seq<FeatureName>, x: Table): (r: seq<real>)
    ensures |r| == |x.rows|
    ensures forall i :: 0 <= i < |x.rows| ==> r[i] == predict(AlignedRow(enc, cats, names, x, x.rows[i]))
  {
    seq(|x.rows|, i requires 0 <= i < |x.rows| => predict(AlignedRow(enc, cats, names, x, x.rows[i])))
  }

  /** The encoder whose indicator columns a frame gets: none without categorical columns. */
  function ActiveEncoder(cats: seq<string>, enc: Option<Encoder>): Encoder {
    if cats == [] || enc.None? then [] else enc.value
  }

  /** The zero-fill loop: every numeric training column the frame lacks, unless categorical, becomes a column of zeros. */
  method FillAbsent(f: Frame, numeric: seq<string>, cats: seq<string>) returns (r: Frame)
    ensures r == ZeroFill(f, numeric, cats)
  {
    r := f;
    var k := 0;
    while k < |numeric|
      invariant 0 <= k <= |numeric|
      invariant r == ZeroFill(f, numeric[..k], cats)
    {
      var col := numeric[k];
      if Plain(col) !in r.names && col !in cats {
        r := AddZeros(r, Plain(col));
      }
      assert numeric[..k + 1][..k] == numeric[..k];
      k := k + 1;
    }
    assert numeric[..k] == numeric;
  }

  /** The vocabulary fitted on `x`'s categorical columns, none when it has none. */
  function TrainedEncoder(x: Table): Encoder {
    var cats := CategoricalFeatures(x.columns);
    if cats == [] then [] else Fit(x, cats)
  }

  /** The split and the vocabulary agree: distinct columns, one well-formed vocabulary per categorical column. */
  ghost predicate Consistent(numeric: seq<string>, cats: seq<string>, encoder: Option<Encoder>) {
    Distinct(numeric) && Distinct(cats)
    && (encoder.Some? ==> EncoderOk(encoder.value))
    && (cats != [] ==> encoder.Some? && Columns(encoder.value) == cats)
  }

  /** The encoder after training on `x`: refitted when `x` has categorical columns, else the previous one. */
  function EncoderAfter(x: Table, previous: Option<Encoder>): Option<Encoder> {
    if CategoricalFeatures(x.columns) == [] then previous else Some(Fit(x, CategoricalFeatures(x.columns)))
  }

  /** Training on a table with distinct column names leaves the split and the vocabulary consistent. */
  lemma TrainingConsistent(x: Table, previous: Option<Encoder>)
    requires WellFormed(x) && (previous.Some? ==> EncoderOk(previous.value))
    ensures Consistent(NumericFeatures(x.columns), CategoricalFeatures(x.columns), EncoderAfter(x, previous))
  {
    SplitDistinct(x.columns);
    if CategoricalFeatures(x.columns) != [] {
      FitOk(x, CategoricalFeatures(x.columns));
    }
  }

  /**
   * Training on `x` needs no zero-fill: its numeric columns are all kept, so the frame the
   * regressor is fitted on has exactly the numeric columns followed by the indicator columns,
   * and these are distinct.
   */
  lemma TrainingFrame(x: Table)
    requires WellFormed(x)
    ensures var cats := CategoricalFeatures(x.columns);
      var base := EncodedFrame(x, cats, TrainedEncoder(x));
      ZeroFill(base, NumericFeatures(x.columns), cats) == base
      && base.names == FeatureColumnsOf(NumericFeatures(x.columns), TrainedEncoder(x))
    ensures Distinct(FeatureColumnsOf(NumericFeatures(x.columns), TrainedEncoder(x)))
  {
    var cats := CategoricalFeatures(x.columns);
    var numeric := NumericFeatures(x.columns);
    var e := TrainedEncoder(x);
    SplitDistinct(x.columns);
    if cats != [] {
      FitOk(x, cats);
    }
    var base := EncodedFrame(x, cats, e);
    forall c | c in numeric ensures Plain(c) in base.names || c in cats {
      KeptEncoded(x, cats, e, c);
    }
    ZeroFillNothing(base, numeric, cats);
    FeatureColumnsDistinct(numeric, e);
  }

  /** What preprocessing in training mode yields: the encoder after training and the frame without zero-fill. */
  lemma TrainingPreprocessed(x: Table, previous: Option<Encoder>, enc: Option<Encoder>, pre: Frame)
    requires WellFormed(x)
    requires var cats := CategoricalFeatures(x.columns);
      enc == (if cats != [] then Some(Fit(x, cats)) else previous)
      && pre == ZeroFill(EncodedFrame(x, cats, ActiveEncoder(cats, enc)), NumericFeatures(x.columns), cats)
    ensures enc == EncoderAfter(x, previous)
    ensures pre == EncodedFrame(x, CategoricalFeatures(x.columns), TrainedEncoder(x))
    ensures pre.names == FeatureColumnsOf(NumericFeatures(x.columns), TrainedEncoder(x))
    ensures Distinct(pre.names)
  {
    TrainingFrame(x);
    assert ActiveEncoder(CategoricalFeatures(x.columns), enc) == TrainedEncoder(x);
  }

  class DemandForecaster {
    /** The regressor; `None` until it has been fitted once. */
    var model: Option<Model>
    var featureColumns: seq<FeatureName>
    var encoder: Option<Encoder>
    var numericFeatures: seq<string>
    var categoricalFeatures: seq<string>
    var trained: bool

    ghost predicate Valid()
      reads this
    {
      Consistent(numericFeatures, categoricalFeatures, encoder)
      && (trained ==> model.Some? && Distinct(featureColumns))
    }

    constructor ()
      ensures Valid() && !trained
      ensures model.None? && featureColumns == [] && encoder.None?
      ensures numericFeatures == [] && categoricalFeatures == []
    {
      model := None;
      featureColumns := [];
      encoder := None;
      numericFeatures := [];
      categoricalFeatures := [];
      trained := false;
    }

    /**
     * `_preprocess_features`: dates to seconds, the categorical columns replaced by their
     * indicators, absent numeric training columns filled with 0 and, outside training, the
     * result reindexed to the training feature columns. Returns the encoder in effect (the
     * freshly fitted one in training), which `Train` stores.
     */
    method PreprocessFeatures(x: Table, training: bool) returns (res: Result<Frame>, enc: Option<Encoder>)
      requires Distinct(numericFeatures) && Distinct(categoricalFeatures)
      requires training ==> forall c :: c in categoricalFeatures ==> Has(x, c)
      requires !training && encoder.Some? ==> EncoderOk(encoder.value)
      ensures enc == if training && categoricalFeatures != [] then Some(Fit(x, categoricalFeatures)) else encoder
      ensures res.Err? <==> !training && categoricalFeatures != [] && (encoder.None? || MissingNames(x, categoricalFeatures) != [])
      ensures res.Err? && encoder.None? ==> res.error == ValueError(NoCategoricalEncoder)
      ensures res.Err? && encoder.Some? ==> res.error == KeyError(MissingNames(x, categoricalFeatures))
      ensures res.Ok? ==> Aligned(res.value, ActiveEncoder(categoricalFeatures, enc), categoricalFeatures, x)
      ensures res.Ok? && training ==>
        res.value == ZeroFill(EncodedFrame(x, categoricalFeatures, ActiveEncoder(categoricalFeatures, enc)), numericFeatures, categoricalFeatures)
      ensures res.Ok? && !training ==> res.value.names == featureColumns
    {
      enc := encoder;
      var e: Encoder := [];
      if categoricalFeatures != [] {
        if training {
          e := Fit(x, categoricalFeatures);
          FitOk(x, categoricalFeatures);
          enc := Some(e);
        } else {
          if encoder.None? {
            return Err(ValueError(NoCategoricalEncoder)), enc;
          }
          var missing := MissingNames(x, categoricalFeatures);
          if missing != [] {
            return Err(KeyError(missing)), enc;
          }
          e := encoder.value;
        }
      }
      assert e == ActiveEncoder(categoricalFeatures, enc) && EncoderOk(e);
      var frame := FillAbsent(EncodedFrame(x, categoricalFeatures, e), numericFeatures, categoricalFeatures);
      ZeroFillAligned(x, categoricalFeatures, e, numericFeatures);
      if training {
        return Ok(frame), enc;
      }
      ReindexAligned(frame, x, categoricalFeatures, e, numericFeatures, featureColumns);
      res := Ok(Reindex(frame, featureColumns));
    }

    /**
     * What `predict` gives: a ValueError while untrained, a KeyError naming the categorical
     * training columns the input lacks, else the regressor applied to each input row's
     * aligned feature row.
     */
    function Predictions(x: Table): (r: Result<seq<real>>)
      requires Valid()
      reads this
      ensures r.Err? <==> !trained || exists c :: c in categoricalFeatures && !Has(x, c)
      ensures !trained ==> r == Err(ValueError(NotTrained))
      ensures trained && r.Err? ==> r.error == KeyError(MissingNames(x, categoricalFeatures))
      ensures r.Ok? ==> |r.value| == |x.rows|
    {
      if !trained then Err(ValueError(NotTrained))
      else if categoricalFeatures != [] && MissingNames(x, categoricalFeatures) != [] then
        assert MissingNames(x, categoricalFeatures)[0] in MissingNames(x, categoricalFeatures);
        Err(KeyError(MissingNames(x, categoricalFeatures)))
      else Ok(PredictRows(model.value.predict, ActiveEncoder(categoricalFeatures, encoder), categoricalFeatures, featureColumns, x))
    }

    method Predict(x: Table) returns (res: Result<seq<real>>)
      requires Valid()
      ensures res == Predictions(x)
    {
      if !trained {
        return Err(ValueError(NotTrained));
      }
      var pre, enc := PreprocessFeatures(x, false);
      if pre.Err? {
        return Err(pre.error);
      }
      var f := pre.value;
      forall i | 0 <= i < f.height
        ensures FrameRow(f, i) == AlignedRow(ActiveEncoder(categoricalFeatures, encoder), categoricalFeatures, featureColumns, x, x.rows[i])
      {
        AlignedRows(f, ActiveEncoder(categoricalFeatures, encoder), categoricalFeatures, x, i);
      }
      var predict := model.value.predict;
      var out := seq(f.height, i requires 0 <= i < f.height => predict(FrameRow(f, i)));
      assert out == PredictRows(predict, ActiveEncoder(categoricalFeatures, encoder), categoricalFeatures, featureColumns, x);
      res := Ok(out);
    }

    /** `forecast_future`: the predictions as a list, one value per input row. */
    method ForecastFuture(x: Table) returns (res: Result<seq<real>>)
      requires Valid()
      ensures res == Predictions(x)
      ensures res.Ok? ==> |res.value| == |x.rows|
    {
      res := Predict(x);
    }

    /**
     * `get_feature_importance`: a ValueError while untrained, else the feature columns paired
     * with the importances, in non-increasing order, ties in feature order.
     */
    function FeatureImportance(): (r: Result<seq<Ranked>>)
      requires Valid()
      reads this
      ensures r.Err? <==> !trained
      ensures r.Err? ==> r.error == ValueError(NotTrained)
      ensures r.Ok? ==> NonIncreasing(r.value)
      ensures r.Ok? ==> multiset(r.value) == multiset(Zip(featureColumns, model.value.importances))
      ensures r.Ok? ==> forall v :: WithImportance(r.value, v) == WithImportance(Zip(featureColumns, model.value.importances), v)
    {
      if !trained then Err(ValueError(NotTrained))
      else
        SortDescendingCorrect(Zip(featureColumns, model.value.importances));
        Ok(FormatImportance(featureColumns, model.value.importances))
    }

    /**
     * The first half of `train`: fixes the split and the vocabulary and preprocesses `x` in
     * training mode, which yields the numeric columns followed by the indicator columns.
     */
    method SplitAndEncode(x: Table) returns (frame: Frame)
      requires Valid() && WellFormed(x)
      modifies this
      ensures Valid()
      ensures numericFeatures == NumericFeatures(x.columns) && categoricalFeatures == CategoricalFeatures(x.columns)
      ensures encoder == EncoderAfter(x, old(encoder))
      ensures trained == old(trained) && featureColumns == old(featureColumns) && model == old(model)
      ensures frame == EncodedFrame(x, CategoricalFeatures(x.columns), TrainedEncoder(x))
    {
      SetSplit(x);
      var enc;
      frame, enc := EncodeForTraining(x);
      TrainingConsistent(x, old(encoder));
      encoder := enc;
    }

    /** `_preprocess_features(X, training=True)` once the split is fixed: the refitted encoder and the frame. */
    method EncodeForTraining(x: Table) returns (frame: Frame, enc: Option<Encoder>)
      requires WellFormed(x)
      requires numericFeatures == NumericFeatures(x.columns) && categoricalFeatures == CategoricalFeatures(x.columns)
      requires Distinct(numericFeatures) && Distinct(categoricalFeatures)
      ensures enc == EncoderAfter(x, encoder)
      ensures frame == EncodedFrame(x, CategoricalFeatures(x.columns), TrainedEncoder(x))
    {
      var pre;
      pre, enc := PreprocessFeatures(x, true);
      TrainingPreprocessed(x, encoder, enc, pre.value);
      frame := pre.value;
    }

    /** `train`'s split of the columns: the numeric ones and the others, each in table order. */
    method SetSplit(x: Table)
      requires WellFormed(x)
      modifies this
      ensures numericFeatures == NumericFeatures(x.columns) && categoricalFeatures == CategoricalFeatures(x.columns)
      ensures Distinct(numericFeatures) && Distinct(categoricalFeatures)
      ensures encoder == old(encoder) && trained == old(trained)
      ensures featureColumns == old(featureColumns) && model == old(model)
    {
      SplitDistinct(x.columns);
      numericFeatures, categoricalFeatures := NumericFeatures(x.columns), CategoricalFeatures(x.columns);
    }

    /** The end of `train`: stores the fitted model and freezes the feature columns. */
    method Commit(fitted: Model, names: seq<FeatureName>)
      requires Valid() && Distinct(names)
      modifies this
      ensures Valid() && trained && model == Some(fitted) && featureColumns == names
      ensures numericFeatures == old(numericFeatures) && categoricalFeatures == old(categoricalFeatures)
      ensures encoder == old(encoder)
    {
      model, featureColumns, trained := Some(fitted), names, true;
    }

    /**
     * `train`: refuses an empty input before touching any field; otherwise fixes the split and
     * the vocabulary, and then, unless the train/test split is impossible (a target of another
     * length, or a single row), fits the regressor and freezes the feature columns: the numeric
     * columns in table order followed by the indicator columns.
     */
    method Train(x: Table, y: seq<Value>, learn: (Frame, seq<Value>) -> Fitted) returns (res: Result<TrainReport>)
      requires Valid() && WellFormed(x)
      modifies this
      ensures Valid()
      ensures |x.rows| == 0 ==> res == Err(ValueError(NoTrainingRows)) && unchanged(this)
      ensures |x.rows| > 0 ==>
        numericFeatures == NumericFeatures(x.columns) && categoricalFeatures == CategoricalFeatures(x.columns)
        && encoder == EncoderAfter(x, old(encoder))
      ensures |x.rows| > 0 && |y| != |x.rows| ==> res == Err(ValueError(InconsistentSamples))
      ensures |x.rows| == 1 && |y| == 1 ==> res == Err(ValueError(EmptyTrainSplit))
      ensures res.Err? ==> trained == old(trained) && featureColumns == old(featureColumns) && model == old(model)
      ensures |x.rows| >= 2 && |y| == |x.rows| ==>
        var fit := learn(EncodedFrame(x, CategoricalFeatures(x.columns), TrainedEncoder(x)), y);
        trained && featureColumns == FeatureColumnsOf(NumericFeatures(x.columns), TrainedEncoder(x))
        && model == Some(fit.model)
        && res == Ok(TrainReport(fit.r2, fit.mae, FormatImportance(featureColumns, fit.model.importances)))
    {
      if |x.rows| == 0 {
        return Err(ValueError(NoTrainingRows));
      }
      var frame := SplitAndEncode(x);
      if |y| != |x.rows| {
        return Err(ValueError(InconsistentSamples));
      }
      if |x.rows| == 1 {
        return Err(ValueError(EmptyTrainSplit));
      }
      TrainingFrame(x);
      var fit := learn(frame, y);
      Commit(fit.model, frame.names);
      res := Ok(TrainReport(fit.r2, fit.mae, FormatImportance(featureColumns, fit.model.importances)));
    }
  }

  /** The report's keys are the feature columns once each when there is one importance per column. */
  lemma ImportanceKeys(f: DemandForecaster)
    requires f.Valid() && f.trained && |f.model.value.importances| == |f.featureColumns|
    ensures f.FeatureImportance().Ok?
    ensures multiset(Features(f.FeatureImportance().value)) == multiset(f.featureColumns)
  {
    FormatImportanceKeys(f.featureColumns, f.model.value.importances);
  }

  /**
   * Predicting on the very columns the model was trained on never fails: every categorical
   * training column is among them, and there is one prediction per row.
   */
  lemma PredictOnTrainingColumns(f: DemandForecaster, x: Table)
    requires f.Valid() && f.trained && f.categoricalFeatures == CategoricalFeatures(x.columns)
    ensures f.Predictions(x).Ok? && |f.Predictions(x).value| == |x.rows|
  {
    NoneMissing(x, f.categoricalFeatures);
  }
}
