/**
 * `DataPreprocessor` (preprocessor.py:15-334): the object whose `fit` learns the imputer
 * fill values, freezes the amenity vocabulary, fits the boolean encoders and freezes
 * `final_feature_names`, and whose `transform` replays the column steps and assembles
 * the final numeric frame. The object's fields are the fields of a class; `fit` and
 * `transform` are methods proved against spec functions of the old state and the input.
 */
module Preprocessor {
  import opened Wrappers
  import opened Frames
  import opened Dates
  import opened Features
  import opened Imputers
  import opened Stages
  import opened AmenityScores

  /** The library calls the preprocessor makes, as parameters: pandas' date and number
      parsing, the median a SimpleImputer learns, VADER's polarity, TextBlob's
      subjectivity, `haversine` and the amenity-score numerics. */
  datatype Lib = Lib(
    parseDate: string -> DateParse,
    parseFloat: string -> Option<real>,
    parseInt: string -> Option<int>,
    median: seq<Cell> -> Option<real>,
    polarity: string -> real,
    subjectivity: string -> real,
    haversine: (Cell, Cell, real, real) -> Cell,
    scores: ScoreLib)

  // ---------------------------------------------------------------- fit, as functions

  /** Lines 215-221: the distance, the two description scores, the amenity count and the
      two city scores, in the source's order. */
  function FitFeatures(lib: Lib, x: Frame): (r: Result<Frame>)
    requires x.Valid()
    ensures r.Ok? ==> r.value.Valid() && r.value.height == x.height
  {
    var y :- DistanceToCenter(lib.haversine, x);
    var z :- ObjectivityScore(lib.subjectivity, y);
    var w :- SentimentScore(lib.polarity, z);
    var v :- FitAmenityCounts(w);
    CityScores(v)
  }

  /** A successful run of lines 215-221 keeps every column and adds its six columns, all
      of them cluster features. */
  lemma FitFeaturesColumns(lib: Lib, x: Frame)
    requires x.Valid() && FitFeatures(lib, x).Ok?
    ensures var r := FitFeatures(lib, x).value;
      (forall c :: c in x.cols ==> c in r.cols)
      && "distance_to_city_center" in r.cols && "objectivity" in r.cols && "sentiment" in r.cols
      && "n_amenities" in r.cols && "city_value_score" in r.cols && "city_expense_score" in r.cols
  {
    var y := DistanceToCenter(lib.haversine, x).value;
    var z := ObjectivityScore(lib.subjectivity, y).value;
    var w := SentimentScore(lib.polarity, z).value;
    var v := FitAmenityCounts(w).value;
    assert CityScores(v).Ok?;
  }

  /** Lines 209-212: each imputer is fitted on its column and imputes it, in order; the
      first column whose imputer cannot be fitted raises, a KeyError when the input lacks
      it and a ValueError otherwise. */
  function FitImputed(lib: Lib, x: Frame): (r: Result<Frame>)
    requires x.Valid()
    ensures r.Ok? <==> forall c :: c in ImputerCols ==> Learnable(lib.median, x, c)
    ensures r.Err? ==> r.error == FitError(x, FirstAbsent(ImputerCols, LearnableCols(lib.median, x, ImputerCols)))
    ensures r.Ok? ==> x.HasAll(ImputerCols)
    ensures r.Ok? ==> r.value.Valid() && r.value.height == x.height && forall c :: c in x.cols ==> c in r.value.cols
  {
    if exists c :: c in ImputerCols && !Learnable(lib.median, x, c) then
      Err(FitError(x, FirstAbsent(ImputerCols, LearnableCols(lib.median, x, ImputerCols))))
    else
      var fills := LearnedFills(lib.median, x, ImputerCols);
      ImputerTable();
      ImputeOverEffect(fills, x, ImputerCols);
      ImputeOver(fills, x, ImputerCols)
  }

  /** Lines 215-221 after the amenity step: its error passes through, a frame gets the
      fit-time features. */
  function FitFeaturesAfter(lib: Lib, o: Result<Frame>): (r: Result<Frame>)
    requires o.Ok? ==> o.value.Valid()
    ensures r.Ok? ==> o.Ok? && r.value.Valid() && r.value.height == o.value.height
    ensures o.Err? ==> r == o
  {
    match o
    case Err(e) => Err(e)
    case Ok(z) => FitFeatures(lib, z)
  }

  /** Lines 213-221 on the imputed frame: the amenity score, then the fit-time features. */
  function FitScored(lib: Lib, s: AmenityState, y: Frame): (r: Scored)
    requires s.Valid() && y.Valid()
    ensures r.state.Valid()
    ensures r.out.Ok? ==> r.out.value.Valid() && r.out.value.height == y.height
  {
    var t := AmenityStep(lib.scores, s, y);
    Scored(FitFeaturesAfter(lib, t.out), t.state)
  }

  /** The frame `fit` builds (lines 209-221) and the amenity state it leaves. */
  function FitFrame(lib: Lib, s: AmenityState, x: Frame): (r: Scored)
    requires s.Valid() && x.Valid()
    ensures r.state.Valid()
    ensures r.out.Ok? ==> r.out.value.Valid() && r.out.value.height == x.height
  {
    match FitImputed(lib, x)
    case Err(e) => Scored(Err(e), s)
    case Ok(y) => FitScored(lib, s, y)
  }

  /** A successful fit frame has every cluster feature but `room_type`, and `room_type`
      whenever the input has it; `final_feature_names` then lists each of them. */
  lemma FitFrameHasClusterFeatures(lib: Lib, s: AmenityState, x: Frame)
    requires s.Valid() && x.Valid() && FitFrame(lib, s, x).out.Ok?
    ensures var y := FitFrame(lib, s, x).out.value;
      y.HasAll(ClusterFeatures[1..]) && ("room_type" in x.cols ==> y.HasAll(ClusterFeatures))
  {
    var y0 := FitImputed(lib, x).value;
    ImputedHas(x);
    StepKeepsColumns(lib.scores, s, y0);
    var y1 := AmenityStep(lib.scores, s, y0).out.value;
    FitFeaturesColumns(lib, y1);
    ClusterColumns(FitFeatures(lib, y1).value);
  }

  // ---------------------------------------------------------------- transform, as functions

  /** Lines 247-268: the review dates, the response rate and the cleaning fee. */
  function Cleaned(lib: Lib, x: Frame): (r: Result<Frame>)
    requires x.Valid()
    ensures r.Ok? ==> r.value.Valid() && r.value.height == x.height
  {
    var y :- ReviewDates(lib.parseDate, x);
    var z :- HostResponseRate(lib.parseFloat, y);
    CleaningFee(lib.parseInt, z)
  }

  /** Lines 279-313: bins, amenity lists, description scores, the luxury flag, the city
      scores, the two row-wise date columns and the distance, in the source's order. */
  function Derived(lib: Lib, x: Frame): (r: Result<Frame>)
    requires x.Valid()
    ensures r.Ok? ==> r.value.Valid() && r.value.height == x.height
  {
    var b :- Bins(x);
    var y := SplitAmenities(lib.scores.show, b);
    var z :- DescriptionScores(lib.polarity, lib.subjectivity, y);
    var w :- CityScores(LuxuryPolicy(z));
    var d :- DaysBetweenReviews(lib.parseDate, w);
    var t :- HostTenures(lib.parseDate, d);
    DistanceToCenter(lib.haversine, t)
  }

  /** Lines 239-313: everything `transform` does before the amenity score. */
  function Prepped(lib: Lib, fills: map<string, Cell>, encoders: Option<set<string>>, x: Frame): (r: Result<Frame>)
    requires x.Valid()
    ensures r.Ok? ==> r.value.Valid() && r.value.height == x.height
  {
    var y0 :- ImputeOver(fills, x, ImputerCols);
    var y1 :- Cleaned(lib, y0);
    var y2 :- BoolOver(encoders, y1, BoolCols);
    Derived(lib, EncodeOver(y2, EncoderNames))
  }

  /** Lines 315-331 on the prepared frame `y`, with the frozen names `final`: the amenity
      score is recomputed (and the state advanced) only when the frame has
      `split_amenities`; then the score columns are read and the frame assembled. */
  function TransformFrom(sl: ScoreLib, s: AmenityState, final: seq<string>, y: Frame): (r: Scored)
    requires s.Valid() && y.Valid() && Distinct(final)
    ensures r.state.Valid()
    ensures r.out.Ok? ==> r.out.value.Valid() && r.out.value.height == y.height
  {
    var t := if y.Has("split_amenities") then AmenityStep(sl, s, y) else Scored(Ok(y), s);
    match t.out
    case Err(_) => t
    case Ok(z) =>
      match AmenityScore(sl, t.state, z)
      case Err(e) => Scored(Err(e), t.state)
      case Ok(w) => Scored(Ok(Assemble(w, final)), t.state)
  }

  /** What the tail of `transform` returns has only frozen feature names, no identifier
      or date column, and only numeric columns. */
  lemma TransformFromOutput(sl: ScoreLib, s: AmenityState, final: seq<string>, y: Frame)
    requires s.Valid() && y.Valid() && Distinct(final)
    ensures var r := TransformFrom(sl, s, final, y).out;
      r.Ok? ==> forall n :: n in r.value.cols ==> n in final && n !in DropCols && r.value.NumericColumn(n)
  {
    var r := TransformFrom(sl, s, final, y).out;
    if r.Ok? {
      var t := if y.Has("split_amenities") then AmenityStep(sl, s, y) else Scored(Ok(y), s);
      var w := AmenityScore(sl, t.state, t.out.value).value;
      assert r.value == Assemble(w, final);
    }
  }

  /** All of `transform` (lines 238-331) with the fitted values `fills`, `encoders` and
      `final`: the frame it returns and the amenity state it leaves. */
  function TransformSpec(lib: Lib, s: AmenityState, fills: map<string, Cell>, encoders: Option<set<string>>,
                         final: seq<string>, x: Frame): (r: Scored)
    requires s.Valid() && x.Valid() && Distinct(final)
    ensures r.state.Valid()
  {
    match Prepped(lib, fills, encoders, x)
    case Err(e) => Scored(Err(e), s)
    case Ok(y) => TransformFrom(lib.scores, s, final, y)
  }

  /** What `transform` returns has one row per input row, only frozen feature names, no
      identifier or date column, and only numeric columns. */
  lemma TransformOutput(lib: Lib, s: AmenityState, fills: map<string, Cell>, encoders: Option<set<string>>,
                        final: seq<string>, x: Frame)
    requires s.Valid() && x.Valid() && Distinct(final)
    ensures var r := TransformSpec(lib, s, fills, encoders, final, x).out;
      r.Ok? ==> (r.value.Valid() && r.value.height == x.height
                 && forall n :: n in r.value.cols ==> n in final && n !in DropCols && r.value.NumericColumn(n))
  {
    var p := Prepped(lib, fills, encoders, x);
    if p.Ok? {
      TransformFromOutput(lib.scores, s, final, p.value);
    }
  }

  /** How lines 213-236 leave `bool_encoders` (`enc`, before: `enc0`) and
      `final_feature_names` (`final`, before: `final0`), with outcome `r`, when the amenity
      step and the fit-time features gave `t`: an error there leaves both alone; otherwise
      the encoders are reassigned, and the names frozen exactly when every boolean column
      is present; otherwise the first boolean column missing raises a KeyError, and the
      encoders are those of the boolean columns before it. */
  ghost predicate Settled(t: Result<Frame>, r: Outcome, enc: Option<set<string>>, final: seq<string>,
                          enc0: Option<set<string>>, final0: seq<string>)
    requires t.Ok? ==> t.value.Valid()
  {
    match t
    case Err(e) => r == Fail(e) && enc == enc0 && final == final0
    case Ok(z) =>
      enc.Some?
      && if z.HasAll(BoolCols) then
           r == Pass && enc == Some(BoolKeys) && final == FinalNames(z)
         else r == Fail(KeyError(FirstAbsent(BoolCols, z.cols.Keys))) && EncodersBefore(enc.value, z.cols.Keys)
              && final == final0
  }

  // ---------------------------------------------------------------- the object

  class DataPreprocessor {
    const lib: Lib
    var fitted: bool
    var tfidfTopFeatures: Option<seq<string>>
    /** The documents the TF-IDF vectorizer was fitted on. */
    var corpus: Option<seq<string>>
    var tfidfMatrix: Option<seq<seq<real>>>
    /** The scores `amenity_scaler` was last fitted on. */
    var amenityScaler: Option<seq<real>>
    /** The fill value of every fitted imputer. */
    var imputerFills: map<string, Cell>
    /** The boolean columns with a fitted encoder; None before `bool_encoders` is assigned. */
    var boolEncoders: Option<set<string>>
    var finalFeatureNames: seq<string>

    /** The fields `_compute_amenity_score` manages. */
    function Amenity(): AmenityState
      reads this`fitted, this`tfidfTopFeatures, this`corpus, this`tfidfMatrix, this`amenityScaler
    {
      AmenityState(fitted, tfidfTopFeatures, corpus, tfidfMatrix, amenityScaler)
    }

    ghost predicate Valid()
      reads this`fitted, this`tfidfTopFeatures, this`corpus, this`tfidfMatrix, this`amenityScaler
      reads this`finalFeatureNames
    {
      Amenity().Valid() && Distinct(finalFeatureNames)
    }

    /** `__init__`: nothing fitted. */
    constructor (lib: Lib)
      ensures Valid() && this.lib == lib && Amenity() == Unfitted
      ensures imputerFills == map[] && boolEncoders == None && finalFeatureNames == []
    {
      this.lib := lib;
      fitted, tfidfTopFeatures, corpus, tfidfMatrix, amenityScaler := false, None, None, None, None;
      imputerFills, boolEncoders, finalFeatureNames := map[], None, [];
    }

    /** `_compute_amenity_score` (lines 131-186). */
    method ComputeAmenityScore(x: Frame) returns (r: Result<Frame>)
      requires Valid() && x.Valid()
      modifies this`fitted, this`tfidfTopFeatures, this`corpus, this`tfidfMatrix, this`amenityScaler
      ensures r == AmenityStep(lib.scores, old(Amenity()), x).out
      ensures Amenity() == AmenityStep(lib.scores, old(Amenity()), x).state
      ensures Valid()
    {
      var p := Prepared(lib.scores.show, x);
      if p.Err? {
        return Err(p.error);
      }
      r := ScoreDocuments(p.value);
    }

    /** Lines 161-184 on the prepared frame. */
    method ScoreDocuments(y: Frame) returns (r: Result<Frame>)
      requires Valid() && y.Valid() && "amenities_str" in y.cols
      modifies this`fitted, this`tfidfTopFeatures, this`corpus, this`tfidfMatrix, this`amenityScaler
      ensures Scored(r, Amenity()) == AmenityScores.ScoreDocuments(lib.scores, old(Amenity()), y)
      ensures Valid()
    {
      var docs := Documents(y);
      if docs == [] {
        // `fit_transform` or `transform` of an empty corpus
        return Err(ValueError);
      }
      var m := Vectorize(docs);
      amenityScaler := Some(RowSums(m));
      r := Ok(WithScores(lib.scores.standardize, y, tfidfTopFeatures.value, m));
    }

    /** Lines 161-177: fit the vectorizer and freeze the top features, or weight the
        documents against the frozen features and store the matrix. */
    method Vectorize(docs: seq<string>) returns (m: seq<seq<real>>)
      requires Valid() && docs != []
      modifies this`fitted, this`tfidfTopFeatures, this`corpus, this`tfidfMatrix
      ensures (Amenity(), m) == AmenityScores.Vectorize(lib.scores, old(Amenity()), docs)
      ensures Valid()
    {
      if !fitted {
        var top := TopFeatures(lib.scores.rank(docs), docs);
        tfidfTopFeatures := Some(top);
        corpus := Some(docs);
        m := Matrix(lib.scores.weight, docs, top, docs);
        fitted := true;
      } else {
        m := Matrix(lib.scores.weight, corpus.value, tfidfTopFeatures.value, docs);
        tfidfMatrix := Some(m);
      }
    }

    /** Lines 209-212. The imputers fitted before a missing column keep their new fill
        values. */
    method FitImputerFills(x: Frame) returns (r: Result<Frame>)
      requires x.Valid()
      modifies this`imputerFills
      ensures r == FitImputed(lib, x)
      ensures r.Ok? ==> imputerFills == old(imputerFills) + LearnedFills(lib.median, x, ImputerCols)
      ensures r.Err? ==>
        exists k :: 0 <= k < |ImputerCols|
                    && ImputerCols[k] == FirstAbsent(ImputerCols, LearnableCols(lib.median, x, ImputerCols))
                    && imputerFills == old(imputerFills) + LearnedFills(lib.median, x, ImputerCols[..k])
    {
      ImputerTable();
      var fills, y0 := FitImputers(lib.median, x, ImputerCols);
      imputerFills := imputerFills + fills;
      if y0.Err? {
        var k :| 0 <= k < |ImputerCols| && !Learnable(lib.median, x, ImputerCols[k]) && y0.error == FitError(x, ImputerCols[k])
                 && (forall j :: 0 <= j < k ==> Learnable(lib.median, x, ImputerCols[j]))
                 && fills == LearnedFills(lib.median, x, ImputerCols[..k]);
        FirstAbsentIs(ImputerCols, LearnableCols(lib.median, x, ImputerCols), k);
      }
      return y0;
    }

    /** Lines 213-236 on the imputed frame. `bool_encoders` is reassigned even when one of
        the boolean columns is missing; `final_feature_names` is frozen and `fitted` set
        only when all of them are present. */
    method FitRest(y: Frame) returns (r: Outcome)
      requires Valid() && y.Valid()
      modifies this`fitted, this`tfidfTopFeatures, this`corpus, this`tfidfMatrix, this`amenityScaler
      modifies this`boolEncoders, this`finalFeatureNames
      ensures var t := AmenityStep(lib.scores, old(Amenity()), y);
        Amenity() == t.state
        && Settled(FitFeaturesAfter(lib, t.out), r, boolEncoders, finalFeatureNames, old(boolEncoders), old(finalFeatureNames))
      ensures Valid()
    {
      var y1 := ComputeAmenityScore(y);
      r := FitTail(y1);
    }

    /** Lines 215-236 on the amenity step's result: the fit-time features, the boolean
        encoders, the final feature names and the flag. */
    method FitTail(z0: Result<Frame>) returns (r: Outcome)
      requires Valid() && (z0.Ok? ==> z0.value.Valid() && fitted)
      modifies this`fitted, this`boolEncoders, this`finalFeatureNames
      ensures Amenity() == old(Amenity())
      ensures Settled(FitFeaturesAfter(lib, z0), r, boolEncoders, finalFeatureNames, old(boolEncoders), old(finalFeatureNames))
      ensures Valid()
    {
      var z := FitFeaturesAfter(lib, z0);
      if z.Err? {
        r := Fail(z.error);
      } else {
        var encoders, o := FitBools(z.value);
        boolEncoders := Some(encoders);
        r := o;
        if o.Pass? {
          finalFeatureNames := FinalNames(z.value);
          assert fitted;
          fitted := true;
        }
      }
    }

    /** `fit` (lines 208-236). */
    method Fit(x: Frame) returns (r: Outcome)
      requires Valid() && x.Valid()
      modifies this`fitted, this`tfidfTopFeatures, this`corpus, this`tfidfMatrix, this`amenityScaler
      modifies this`imputerFills, this`boolEncoders, this`finalFeatureNames
      ensures FitImputed(lib, x).Ok? ==> imputerFills == old(imputerFills) + LearnedFills(lib.median, x, ImputerCols)
      ensures FitImputed(lib, x).Err? ==>
        exists k :: 0 <= k < |ImputerCols|
                    && ImputerCols[k] == FirstAbsent(ImputerCols, LearnableCols(lib.median, x, ImputerCols))
                    && imputerFills == old(imputerFills) + LearnedFills(lib.median, x, ImputerCols[..k])
      ensures var t := FitFrame(lib, old(Amenity()), x);
        Amenity() == t.state && Settled(t.out, r, boolEncoders, finalFeatureNames, old(boolEncoders), old(finalFeatureNames))
      ensures Valid()
    {
      var y0 := FitImputerFills(x);
      if y0.Err? {
        return Fail(y0.error);
      }
      r := FitRest(y0.value);
      assert FitFrame(lib, old(Amenity()), x) == FitScored(lib, old(Amenity()), y0.value);
    }

    /** Lines 239-313: everything `transform` does before the amenity score, with the
        fitted imputers and encoders. */
    method Prepare(x: Frame) returns (r: Result<Frame>)
      requires x.Valid()
      ensures r == Prepped(lib, imputerFills, boolEncoders, x)
    {
      var y0 := ImputeColumns(imputerFills, x, ImputerCols);
      if y0.Err? {
        return y0;
      }
      var y1 := Cleaned(lib, y0.value);
      if y1.Err? {
        return y1;
      }
      var y2 := EncodeBools(boolEncoders, y1.value);
      if y2.Err? {
        return y2;
      }
      var y3 := EncodeAll(y2.value);
      r := Derived(lib, y3);
    }

    /** `transform` (lines 238-331). Only the amenity state can change, and once fitted
        the flag, the top features and the corpus stay as they are. */
    method Transform(x: Frame) returns (r: Result<Frame>)
      requires Valid() && x.Valid()
      modifies this`fitted, this`tfidfTopFeatures, this`corpus, this`tfidfMatrix, this`amenityScaler
      ensures Scored(r, Amenity()) == TransformSpec(lib, old(Amenity()), imputerFills, boolEncoders, finalFeatureNames, x)
      ensures old(fitted) ==> fitted && unchanged(this`tfidfTopFeatures, this`corpus)
      ensures Valid()
    {
      var p := Prepare(x);
      if p.Err? {
        return p;
      }
      r := TransformPrepared(p.value);
    }

    /** Lines 315-331 on the prepared frame. */
    method TransformPrepared(y0: Frame) returns (r: Result<Frame>)
      requires Valid() && y0.Valid()
      modifies this`fitted, this`tfidfTopFeatures, this`corpus, this`tfidfMatrix, this`amenityScaler
      ensures Scored(r, Amenity()) == TransformFrom(lib.scores, old(Amenity()), finalFeatureNames, y0)
      ensures old(fitted) ==> fitted && unchanged(this`tfidfTopFeatures, this`corpus)
      ensures Valid()
    {
      var y := y0;
      if y.Has("split_amenities") {
        if fitted {
          LaterCallsKeepFeatures(lib.scores, Amenity(), y);
        }
        var z := ComputeAmenityScore(y);
        if z.Err? {
          return z;
        }
        y := z.value;
      }
      var w := AmenityScore(lib.scores, Amenity(), y);
      if w.Err? {
        return w;
      }
      var f := ZeroFill(w.value, finalFeatureNames);
      ZeroFillEffect(w.value, finalFeatureNames);
      r := Ok(f.Select(finalFeatureNames).value.Drop(DropCols).KeepNumeric());
    }

    /** `fit_transform` (lines 333-334): `transform` right after `fit`, on the same frame. */
    method FitTransform(x: Frame) returns (r: Result<Frame>)
      requires Valid() && x.Valid()
      modifies this`fitted, this`tfidfTopFeatures, this`corpus, this`tfidfMatrix, this`amenityScaler
      modifies this`imputerFills, this`boolEncoders, this`finalFeatureNames
      ensures r.Ok? ==> fitted && forall n :: n in r.value.cols ==> n in finalFeatureNames
      ensures Valid()
    {
      var o := Fit(x);
      if o.Fail? {
        return Err(o.error);
      }
      ghost var s := Amenity();
      r := Transform(x);
      TransformOutput(lib, s, imputerFills, boolEncoders, finalFeatureNames, x);
    }
  }
}
