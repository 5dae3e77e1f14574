/**
 * `_compute_amenity_score` (preprocessor.py:131-186) and the amenity-score lines of
 * `transform` (lines 315-319). The amenities are prepared as text (lines 150-159), the
 * TF-IDF vectorizer's vocabulary is the set of `comma_tokenizer` tokens, and the `fitted`
 * flag drives a small state machine: the first call freezes the top features and the
 * corpus the vectorizer was fitted on; every later call keeps them and only replaces the
 * TF-IDF matrix, restricted to the frozen features. The numeric parts of scikit-learn
 * (the TF-IDF weights, the ranking of features by mean weight, the StandardScaler) are
 * parameters.
 */
module AmenityScores {
  import opened Wrappers
  import opened Text
  import opened Frames
  import opened Amenities
  import opened Stages
  import opened Utils

  /** The default `top_k` of `_compute_amenity_score`. */
  const TopK: nat := 30

  /** The numeric parts of the amenity score that come from scikit-learn. */
  datatype ScoreLib = ScoreLib(
    show: Cell -> string,                           // Python's `str` of a cell that is neither a string nor NaN
    rank: seq<string> -> seq<string>,              // features by descending mean TF-IDF weight over the documents
    weight: (seq<string>, string, string) -> real,  // weight of a feature in a document, for the fitted corpus
    standardize: (seq<real>, real) -> real)         // a StandardScaler fitted on the scores, applied to one score

  // ---------------------------------------------------------------- preparing the text

  /** A list cell's labels; any other cell is read as the empty list. */
  function AsItems(c: Cell): (r: seq<string>)
    ensures c.Items? ==> r == c.xs
    ensures !c.Items? ==> r == []
  {
    if c.Items? then c.xs else []
  }

  /** Line 150: `fillna('').astype(str)`. */
  function TextCells(show: Cell -> string, col: seq<Cell>): (r: seq<Cell>)
    ensures |r| == |col| && forall i :: 0 <= i < |col| ==> r[i] == Text(AsText(show, col[i]))
  {
    MapCells(col, (c: Cell) => Text(AsText(show, c)))
  }

  /** Line 154: every row's labels after deleting braces and quotes. */
  function FitSplits(show: Cell -> string, col: seq<Cell>): (r: seq<Cell>)
    ensures |r| == |col| && forall i :: 0 <= i < |col| ==> r[i] == Items(SplitForFit(AsText(show, col[i])))
  {
    MapCells(col, (c: Cell) => Items(SplitForFit(AsText(show, c))))
  }

  /** Line 158: `map_amenities` on every row. */
  function StandardCells(col: seq<Cell>): (r: seq<Cell>)
    ensures |r| == |col| && forall i :: 0 <= i < |col| ==> r[i] == Items(MapAmenities(AsItems(col[i])))
  {
    MapCells(col, (c: Cell) => Items(MapAmenities(AsItems(c))))
  }

  /** Line 159: every row's labels joined by commas. */
  function JoinedCells(col: seq<Cell>): (r: seq<Cell>)
    ensures |r| == |col| && forall i :: 0 <= i < |col| ==> r[i] == Text(Join(AsItems(col[i]), ','))
  {
    MapCells(col, (c: Cell) => Text(Join(AsItems(c), ',')))
  }

  /** The columns lines 150-159 may write. */
  const PreparedCols: set<string> := {"amenities", "split_amenities", "standard_amenities", "amenities_str"}

  /** Lines 150-159: the amenities become text; `split_amenities` is computed only when the
      frame lacks it, and `standard_amenities` and `amenities_str` only when the frame lacks
      `amenities_str`; a frame without amenities raises. */
  function Prepared(show: Cell -> string, x: Frame): (r: Result<Frame>)
    requires x.Valid()
    ensures r.Ok? <==> x.Has("amenities")
    ensures r.Err? ==> r.error == KeyError("amenities")
    ensures r.Ok? ==> r.value.Valid() && r.value.height == x.height && Untouched(x, r.value, PreparedCols)
    ensures r.Ok? ==> "amenities" in r.value.cols && "split_amenities" in r.value.cols && "amenities_str" in r.value.cols
    ensures r.Ok? ==> forall c :: c in x.cols ==> c in r.value.cols
    ensures r.Ok? ==> r.value.cols["amenities"] == TextCells(show, x.cols["amenities"])
    ensures r.Ok? ==>
      r.value.cols["split_amenities"] == (if x.Has("split_amenities") then x.cols["split_amenities"] else FitSplits(show, x.cols["amenities"]))
    ensures r.Ok? && x.Has("amenities_str") ==> r.value.cols["amenities_str"] == x.cols["amenities_str"]
    ensures r.Ok? && !x.Has("amenities_str") ==>
      "standard_amenities" in r.value.cols
      && r.value.cols["standard_amenities"] == StandardCells(r.value.cols["split_amenities"])
      && r.value.cols["amenities_str"] == JoinedCells(r.value.cols["standard_amenities"])
  {
    var a :- x.Column("amenities");
    var y := WithSplit(show, x, a);
    var z := WithStandard(y);
    UntouchedTrans(x, y, z, {"amenities", "split_amenities"}, {"standard_amenities", "amenities_str"});
    assert {"amenities", "split_amenities"} + {"standard_amenities", "amenities_str"} == PreparedCols;
    Ok(z)
  }

  /** Lines 150-155. */
  function WithSplit(show: Cell -> string, x: Frame, a: seq<Cell>): (r: Frame)
    requires x.Valid() && x.Has("amenities") && a == x.cols["amenities"]
    ensures r.Valid() && r.height == x.height && Untouched(x, r, {"amenities", "split_amenities"})
    ensures forall c :: c in x.cols ==> c in r.cols
    ensures "amenities" in r.cols && "split_amenities" in r.cols && r.cols["amenities"] == TextCells(show, a)
    ensures r.cols["split_amenities"] == (if x.Has("split_amenities") then x.cols["split_amenities"] else FitSplits(show, a))
  {
    var y := x.Set("amenities", TextCells(show, a));
    if y.Has("split_amenities") then y else y.Set("split_amenities", FitSplits(show, a))
  }

  /** Lines 157-159. */
  function WithStandard(y: Frame): (r: Frame)
    requires y.Valid() && y.Has("split_amenities")
    ensures r.Valid() && r.height == y.height && Untouched(y, r, {"standard_amenities", "amenities_str"})
    ensures forall c :: c in y.cols ==> c in r.cols
    ensures "amenities_str" in r.cols && r.cols["split_amenities"] == y.cols["split_amenities"]
    ensures "amenities" in y.cols ==> r.cols["amenities"] == y.cols["amenities"]
    ensures y.Has("amenities_str") ==> r == y
    ensures !y.Has("amenities_str") ==>
      "standard_amenities" in r.cols
      && r.cols["standard_amenities"] == StandardCells(y.cols["split_amenities"])
      && r.cols["amenities_str"] == JoinedCells(r.cols["standard_amenities"])
  {
    if y.Has("amenities_str") then y
    else
      var std := StandardCells(y.cols["split_amenities"]);
      Set2(y, "standard_amenities", std, "amenities_str", JoinedCells(std))
  }

  /** A document as the vectorizer reads it: the text of a string cell, and "" for any
      other cell (which only an `amenities_str` column the caller supplies can hold). */
  function DocumentText(c: Cell): (r: string)
    ensures c.Text? ==> r == c.s
  {
    if c.Text? then c.s else ""
  }

  /** The documents the vectorizer reads: the `amenities_str` text of every row. */
  function Documents(y: Frame): (r: seq<string>)
    requires y.Valid() && "amenities_str" in y.cols
    ensures |r| == y.height && forall i :: 0 <= i < y.height ==> r[i] == DocumentText(y.cols["amenities_str"][i])
  {
    seq(y.height, i requires 0 <= i < y.height => DocumentText(y.cols["amenities_str"][i]))
  }

  /** Without a precomputed `amenities_str`, a row's document is its canonical labels
      joined by commas: the labels of `split_amenities` when the frame has that column
      (as `transform` makes it), and otherwise those of the fit-time split. */
  lemma PreparedDocument(show: Cell -> string, x: Frame, i: nat)
    requires x.Valid() && x.Has("amenities") && !x.Has("amenities_str") && i < x.height
    ensures Prepared(show, x).Ok?
    ensures Documents(Prepared(show, x).value)[i] ==
      if x.Has("split_amenities") then AmenitiesText(AsItems(x.cols["split_amenities"][i]))
      else AmenitiesText(SplitForFit(AsText(show, x.cols["amenities"][i])))
  {
    var y := Prepared(show, x).value;
    var split := y.cols["split_amenities"];
    assert y.cols["standard_amenities"][i] == Items(MapAmenities(AsItems(split[i])));
    assert y.cols["amenities_str"][i] == Text(AmenitiesText(AsItems(split[i])));
  }

  /** For the text `format_amenities_from_string` makes of a user's input, the fit-time
      document (line 154) and the transform-time document (line 285) coincide: both are the
      canonical tokens joined by commas, and the vectorizer's tokenizer reads the canonical
      tokens back from it. */
  lemma FormattedDocument(s: string)
    requires NoneOf(s, FitNoise) && Tokens(s) != []
    ensures FormatAmenities(Text(s)).Ok?
    ensures var f := FormatAmenities(Text(s)).value;
      AmenitiesText(SplitForFit(f)) == AmenitiesText(SplitForTransform(f)) == AmenitiesText(Tokens(s))
      && CommaTokenizer(AmenitiesText(Tokens(s))) == MapAmenities(Tokens(s))
  {
    assert NoneOf(s, {'"'});
    FitSplitRecoversTokens(s);
    TransformSplitRecoversTokens(s);
    TokensShape(s, {});
    TokenizerRecoversCanonical(Tokens(s));
  }

  // ---------------------------------------------------------------- vocabulary and top features

  /** Every document's tokens, in order. */
  function Tokenized(docs: seq<string>): (r: seq<string>)
    ensures forall t :: t in r <==> exists i :: 0 <= i < |docs| && t in CommaTokenizer(docs[i])
    decreases |docs|
  {
    if docs == [] then []
    else
      var init := docs[..|docs| - 1];
      var rest := Tokenized(init);
      assert forall i :: 0 <= i < |init| ==> init[i] == docs[i];
      rest + CommaTokenizer(docs[|docs| - 1])
  }

  /** The vectorizer's vocabulary: each token of some document, once. */
  function Vocabulary(docs: seq<string>): (r: seq<string>)
    ensures Distinct(r)
    ensures forall t :: t in r <==> exists i :: 0 <= i < |docs| && t in CommaTokenizer(docs[i])
  {
    Dedup(Tokenized(docs))
  }

  /** A non-empty corpus has a non-empty vocabulary: `comma_tokenizer` always yields a
      token. */
  lemma VocabularyNonEmpty(docs: seq<string>)
    requires docs != []
    ensures Vocabulary(docs) != []
  {
    assert CommaTokenizer(docs[0])[0] in Vocabulary(docs);
  }

  /** The first `k` labels, or all of them. */
  function Take(ns: seq<string>, k: nat): (r: seq<string>)
    ensures |r| == if |ns| <= k then |ns| else k
    ensures forall n :: n in r ==> n in ns
    ensures Distinct(ns) ==> Distinct(r)
  {
    if |ns| <= k then ns else ns[..k]
  }

  /** The number of labels of a list without repeats is the number of distinct labels. */
  lemma {:induction false} DistinctCard(ns: seq<string>)
    requires Distinct(ns)
    ensures |set n | n in ns| == |ns|
    decreases |ns|
  {
    if ns != [] {
      var init := ns[..|ns| - 1];
      assert Distinct(init);
      DistinctCard(init);
      assert (set n | n in ns) == (set n | n in init) + {ns[|ns| - 1]};
    }
  }

  /** Two lists without repeats and with the same labels have the same length. */
  lemma SameLabelsSameLength(a: seq<string>, b: seq<string>)
    requires Distinct(a) && Distinct(b) && forall n :: n in a <==> n in b
    ensures |a| == |b|
  {
    DistinctCard(a);
    DistinctCard(b);
    assert (set n | n in a) == (set n | n in b);
  }

  /** Every vocabulary term, in the order of `ranking` (terms it omits follow in vocabulary
      order, and labels outside the vocabulary are ignored). */
  function Ordered(ranking: seq<string>, vocab: seq<string>): (r: seq<string>)
    ensures Distinct(r)
    ensures forall n :: n in r <==> n in vocab
  {
    Dedup(Without(ranking, set n | n in ranking && n !in vocab) + vocab)
  }

  /** Line 167: the `top_k` features of highest mean weight. */
  function TopFeatures(ranking: seq<string>, docs: seq<string>): (r: seq<string>)
  {
    Take(Ordered(ranking, Vocabulary(docs)), TopK)
  }

  /** The top features are distinct vocabulary terms, as many as the vocabulary has up to
      30, so there is at least one for a non-empty corpus. */
  lemma TopFeaturesShape(ranking: seq<string>, docs: seq<string>)
    ensures var top, vocab := TopFeatures(ranking, docs), Vocabulary(docs);
      Distinct(top) && (forall n :: n in top ==> n in vocab)
      && |top| == (if |vocab| <= TopK then |vocab| else TopK)
      && (docs != [] ==> top != [])
  {
    var vocab := Vocabulary(docs);
    SameLabelsSameLength(Ordered(ranking, vocab), vocab);
    if docs != [] {
      VocabularyNonEmpty(docs);
    }
  }

  // ---------------------------------------------------------------- the TF-IDF matrix

  /** One document's weights for the given features. */
  function Row(weight: (seq<string>, string, string) -> real, corpus: seq<string>, top: seq<string>, doc: string): (r: seq<real>)
    ensures |r| == |top| && forall j :: 0 <= j < |top| ==> r[j] == weight(corpus, top[j], doc)
  {
    seq(|top|, j requires 0 <= j < |top| => weight(corpus, top[j], doc))
  }

  /** `tfidf_df[top]`: every document's row, restricted to the given features. */
  function Matrix(weight: (seq<string>, string, string) -> real, corpus: seq<string>,
                  top: seq<string>, docs: seq<string>): (r: seq<seq<real>>)
    ensures |r| == |docs| && forall i :: 0 <= i < |docs| ==> r[i] == Row(weight, corpus, top, docs[i])
  {
    seq(|docs|, i requires 0 <= i < |docs| => Row(weight, corpus, top, docs[i]))
  }

  function Sum(xs: seq<real>): real
    decreases |xs|
  {
    if xs == [] then 0.0 else Sum(xs[..|xs| - 1]) + xs[|xs| - 1]
  }

  /** `sum(axis=1)`. */
  function RowSums(m: seq<seq<real>>): (r: seq<real>)
    ensures |r| == |m| && forall i :: 0 <= i < |m| ==> r[i] == Sum(m[i])
  {
    seq(|m|, i requires 0 <= i < |m| => Sum(m[i]))
  }

  /** A column of numbers. */
  function NumCells(xs: seq<real>): (r: seq<Cell>)
    ensures |r| == |xs| && forall i :: 0 <= i < |xs| ==> r[i] == Num(xs[i])
  {
    seq(|xs|, i requires 0 <= i < |xs| => Num(xs[i]))
  }

  /** Line 184: `amenity_scaler.fit_transform` of the scores, each score standardized by
      the scaler fitted on all of them. */
  function Normalized(standardize: (seq<real>, real) -> real, sums: seq<real>): (r: seq<Cell>)
    ensures |r| == |sums| && forall i :: 0 <= i < |sums| ==> r[i] == Num(standardize(sums, sums[i]))
  {
    seq(|sums|, i requires 0 <= i < |sums| => Num(standardize(sums, sums[i])))
  }

  /** The column of feature `j`. */
  function FeatureColumn(m: seq<seq<real>>, j: nat): (r: seq<Cell>)
    requires forall i :: 0 <= i < |m| ==> j < |m[i]|
    ensures |r| == |m| && forall i :: 0 <= i < |m| ==> r[i] == Num(m[i][j])
  {
    seq(|m|, i requires 0 <= i < |m| => Num(m[i][j]))
  }

  /** The columns after appending the first `n` features to `cols`. */
  function ConcatCols(cols: map<string, seq<Cell>>, top: seq<string>, m: seq<seq<real>>, n: nat): map<string, seq<Cell>>
    requires n <= |top| && forall i :: 0 <= i < |m| ==> |m[i]| == |top|
  {
    if n == 0 then cols else ConcatCols(cols, top, m, n - 1)[top[n - 1] := FeatureColumn(m, n - 1)]
  }

  /** `pd.concat([X, tfidf_top_df], axis=1)` for the first `n` features: each is appended
      as the column of its weights. A label the frame already has is overwritten (duplicate
      labels are not modelled). */
  function Concat(x: Frame, top: seq<string>, m: seq<seq<real>>, n: nat): (r: Frame)
    requires x.Valid() && |m| == x.height && n <= |top|
    requires forall i :: 0 <= i < |m| ==> |m[i]| == |top|
    ensures r.Valid() && r.height == x.height && r.cols == ConcatCols(x.cols, top, m, n)
  {
    if n == 0 then x else Concat(x, top, m, n - 1).Set(top[n - 1], FeatureColumn(m, n - 1))
  }

  /** Every column outside the first `n` features is as it was. */
  lemma {:induction false} ConcatColsOther(cols: map<string, seq<Cell>>, top: seq<string>, m: seq<seq<real>>, n: nat)
    requires n <= |top| && forall i :: 0 <= i < |m| ==> |m[i]| == |top|
    ensures var r := ConcatCols(cols, top, m, n);
      forall c :: c !in top[..n] ==> (c in r <==> c in cols) && (c in cols ==> r[c] == cols[c])
  {
    if n > 0 {
      ConcatColsOther(cols, top, m, n - 1);
      assert top[..n] == top[..n - 1] + [top[n - 1]];
    }
  }

  /** Each of the first `n` features' columns holds its weights. */
  lemma {:induction false} ConcatColsFeature(cols: map<string, seq<Cell>>, top: seq<string>, m: seq<seq<real>>, n: nat)
    requires n <= |top| && Distinct(top)
    requires forall i :: 0 <= i < |m| ==> |m[i]| == |top|
    ensures var r := ConcatCols(cols, top, m, n);
      forall j :: 0 <= j < n ==> top[j] in r && r[top[j]] == FeatureColumn(m, j)
  {
    if n > 0 {
      ConcatColsFeature(cols, top, m, n - 1);
      var p := ConcatCols(cols, top, m, n - 1);
      forall j | 0 <= j < n - 1
        ensures top[j] in p[top[n - 1] := FeatureColumn(m, n - 1)] && p[top[n - 1] := FeatureColumn(m, n - 1)][top[j]] == FeatureColumn(m, j)
      {
        assert top[j] != top[n - 1];
      }
    }
  }

  /** Each appended feature's column holds its weights, and every other column is the
      frame's. */
  lemma ConcatEffect(x: Frame, top: seq<string>, m: seq<seq<real>>, n: nat)
    requires x.Valid() && |m| == x.height && n <= |top| && Distinct(top)
    requires forall i :: 0 <= i < |m| ==> |m[i]| == |top|
    ensures var r := Concat(x, top, m, n);
      (forall c :: c !in top[..n] ==> (c in r.cols <==> c in x.cols) && (c in x.cols ==> r.cols[c] == x.cols[c]))
      && forall j :: 0 <= j < n ==> top[j] in r.cols && r.cols[top[j]] == FeatureColumn(m, j)
  {
    ConcatColsOther(x.cols, top, m, n);
    ConcatColsFeature(x.cols, top, m, n);
  }

  /** Lines 183-186. */
  function WithScores(standardize: (seq<real>, real) -> real, y: Frame, top: seq<string>, m: seq<seq<real>>): (r: Frame)
    requires y.Valid() && |m| == y.height
    requires forall i :: 0 <= i < |m| ==> |m[i]| == |top|
    ensures r.Valid() && r.height == y.height
  {
    var sums := RowSums(m);
    Concat(Set2(y, "amenity_score", NumCells(sums), "amenity_score_normalized", Normalized(standardize, sums)), top, m, |top|)
  }

  /** Appending features keeps every column. */
  lemma {:induction false} ConcatColsKeeps(cols: map<string, seq<Cell>>, top: seq<string>, m: seq<seq<real>>, n: nat)
    requires n <= |top| && forall i :: 0 <= i < |m| ==> |m[i]| == |top|
    ensures forall c :: c in cols ==> c in ConcatCols(cols, top, m, n)
  {
    if n > 0 {
      ConcatColsKeeps(cols, top, m, n - 1);
    }
  }

  /** Lines 183-186 keep every column and add the two score columns. */
  lemma WithScoresKeeps(standardize: (seq<real>, real) -> real, y: Frame, top: seq<string>, m: seq<seq<real>>)
    requires y.Valid() && |m| == y.height
    requires forall i :: 0 <= i < |m| ==> |m[i]| == |top|
    ensures var r := WithScores(standardize, y, top, m);
      (forall c :: c in y.cols ==> c in r.cols) && "amenity_score" in r.cols && "amenity_score_normalized" in r.cols
  {
    var sums := RowSums(m);
    var z := Set2(y, "amenity_score", NumCells(sums), "amenity_score_normalized", Normalized(standardize, sums));
    ConcatColsKeeps(z.cols, top, m, |top|);
    assert forall c :: c in y.cols ==> c in z.cols;
  }

  /** Lines 183-186: the score of every row is the sum of its top-feature weights, the
      normalized score is the freshly fitted scaler applied to it, and the top-feature
      columns are appended, each holding its weights; nothing else changes. */
  lemma WithScoresEffect(standardize: (seq<real>, real) -> real, y: Frame, top: seq<string>, m: seq<seq<real>>)
    requires y.Valid() && Distinct(top) && |m| == y.height
    requires forall i :: 0 <= i < |m| ==> |m[i]| == |top|
    ensures var r := WithScores(standardize, y, top, m);
      (forall c :: c !in top && c != "amenity_score" && c != "amenity_score_normalized" ==>
         (c in r.cols <==> c in y.cols) && (c in y.cols ==> r.cols[c] == y.cols[c]))
      && (forall j :: 0 <= j < |top| ==> top[j] in r.cols && r.cols[top[j]] == FeatureColumn(m, j))
      && "amenity_score" in r.cols && "amenity_score_normalized" in r.cols
      && ("amenity_score" !in top ==> r.cols["amenity_score"] == NumCells(RowSums(m)))
      && ("amenity_score_normalized" !in top ==> r.cols["amenity_score_normalized"] == Normalized(standardize, RowSums(m)))
  {
    var sums := RowSums(m);
    var z := Set2(y, "amenity_score", NumCells(sums), "amenity_score_normalized", Normalized(standardize, sums));
    ConcatEffect(z, top, m, |top|);
    assert top[..|top|] == top;
  }

  // ---------------------------------------------------------------- the fitted state machine

  /** The fields `_compute_amenity_score` reads and writes: `fitted`, `tfidf_top_features`,
      the corpus the vectorizer was fitted on, `tfidf_matrix` and the scores
      `amenity_scaler` was last fitted on. */
  datatype AmenityState = AmenityState(fitted: bool, top: Option<seq<string>>, corpus: Option<seq<string>>,
                                       matrix: Option<seq<seq<real>>>, scaler: Option<seq<real>>) {
    /** The vocabulary is frozen exactly when the flag is set; the top features are
        distinct and at most 30; the matrix has one column per top feature. */
    predicate Valid() {
      (fitted <==> top.Some?) && (top.Some? <==> corpus.Some?)
      && (top.Some? ==> Distinct(top.value) && |top.value| <= TopK)
      && (matrix.Some? ==> top.Some? && forall i :: 0 <= i < |matrix.value| ==> |matrix.value[i]| == |top.value|)
    }
  }

  /** The state of a fresh `DataPreprocessor`. */
  const Unfitted: AmenityState := AmenityState(false, None, None, None, None)

  /** What one call returns, and the state it leaves. */
  datatype Scored = Scored(out: Result<Frame>, state: AmenityState)

  /** The branch at lines 161-177, on a corpus the vectorizer accepts (at least one
      document): the state after it and `tfidf_top_df`. Unfitted: the vectorizer is fitted
      on the documents, the top features are frozen and the flag is set; the matrix is left
      as it was. Fitted: the documents are weighted against the frozen features and the
      matrix is replaced. */
  function Vectorize(sl: ScoreLib, s: AmenityState, docs: seq<string>): (r: (AmenityState, seq<seq<real>>))
    requires s.Valid() && docs != []
    ensures r.0.Valid() && r.0.fitted && |r.1| == |docs|
    ensures forall i :: 0 <= i < |r.1| ==> |r.1[i]| == |r.0.top.value|
  {
    if !s.fitted then
      var top := TopFeatures(sl.rank(docs), docs);
      TopFeaturesShape(sl.rank(docs), docs);
      (s.(fitted := true, top := Some(top), corpus := Some(docs)), Matrix(sl.weight, docs, top, docs))
    else
      var m := Matrix(sl.weight, s.corpus.value, s.top.value, docs);
      (s.(matrix := Some(m)), m)
  }

  /** Lines 161-184 on a prepared frame `y`: an empty corpus makes the vectorizer raise a
      ValueError before anything changes, at its first fit (an empty vocabulary) as at a
      later call (`transform` refuses an input without samples, line 173, before the
      matrix is assigned at line 180). */
  function ScoreDocuments(sl: ScoreLib, s: AmenityState, y: Frame): (r: Scored)
    requires s.Valid() && y.Valid() && "amenities_str" in y.cols
    ensures r.state.Valid()
    ensures r.out.Ok? <==> y.height > 0
    ensures r.out.Err? ==> r == Scored(Err(ValueError), s)
    ensures r.out.Ok? ==> r.out.value.Valid() && r.out.value.height == y.height && r.state.fitted
  {
    var docs := Documents(y);
    if docs == [] then Scored(Err(ValueError), s)
    else
      var (t, m) := Vectorize(sl, s, docs);
      Scored(Ok(WithScores(sl.standardize, y, t.top.value, m)), t.(scaler := Some(RowSums(m))))
  }

  /** One call of `_compute_amenity_score` (lines 131-186); a failing call changes nothing. */
  function AmenityStep(sl: ScoreLib, s: AmenityState, x: Frame): (r: Scored)
    requires s.Valid() && x.Valid()
    ensures r.state.Valid()
    ensures r.out.Err? ==> r.state == s
    ensures r.out.Ok? ==> r.out.value.Valid() && r.out.value.height == x.height && r.state.fitted
  {
    match Prepared(sl.show, x)
    case Err(e) => Scored(Err(e), s)
    case Ok(y) => ScoreDocuments(sl, s, y)
  }

  /** A successful call keeps every column of its input and adds the two score columns. */
  lemma StepKeepsColumns(sl: ScoreLib, s: AmenityState, x: Frame)
    requires s.Valid() && x.Valid() && AmenityStep(sl, s, x).out.Ok?
    ensures var z := AmenityStep(sl, s, x).out.value;
      (forall c :: c in x.cols ==> c in z.cols) && "amenity_score" in z.cols && "amenity_score_normalized" in z.cols
  {
    var y := Prepared(sl.show, x).value;
    var (t, m) := Vectorize(sl, s, Documents(y));
    WithScoresKeeps(sl.standardize, y, t.top.value, m);
    assert AmenityStep(sl, s, x).out.value == WithScores(sl.standardize, y, t.top.value, m);
  }

  /** The first successful call freezes the top features of its documents and sets the
      flag, without touching the matrix; a failing first call changes nothing. */
  lemma FirstCallFreezes(sl: ScoreLib, s: AmenityState, x: Frame)
    requires s.Valid() && x.Valid() && !s.fitted
    ensures var r := AmenityStep(sl, s, x);
      (r.out.Err? ==> r.state == s)
      && (r.out.Ok? ==>
        var docs := Documents(Prepared(sl.show, x).value);
        r.state.fitted && r.state.top == Some(TopFeatures(sl.rank(docs), docs)) && r.state.corpus == Some(docs)
        && r.state.matrix == s.matrix && |r.state.top.value| >= 1)
    ensures AmenityStep(sl, s, x).out.Ok? <==> x.Has("amenities") && x.height > 0
  {
    if Prepared(sl.show, x).Ok? {
      var docs := Documents(Prepared(sl.show, x).value);
      TopFeaturesShape(sl.rank(docs), docs);
    }
  }

  /** Once fitted, a call keeps the flag, the top features and the corpus; a failing call
      (no amenities, or no rows) changes nothing, and a successful one replaces the matrix
      by the documents' weights for the frozen features, one column per feature. */
  lemma LaterCallsKeepFeatures(sl: ScoreLib, s: AmenityState, x: Frame)
    requires s.Valid() && x.Valid() && s.fitted
    ensures var r := AmenityStep(sl, s, x);
      r.state.fitted && r.state.top == s.top && r.state.corpus == s.corpus
      && (r.out.Err? ==> r.state == s)
      && (x.Has("amenities") && x.height > 0 ==>
        r.state.matrix == Some(Matrix(sl.weight, s.corpus.value, s.top.value, Documents(Prepared(sl.show, x).value)))
        && |r.state.matrix.value| == x.height
        && forall i :: 0 <= i < x.height ==> |r.state.matrix.value[i]| == |s.top.value|)
    ensures AmenityStep(sl, s, x).out.Ok? <==> x.Has("amenities") && x.height > 0
  {
  }

  /** The states of a run of calls on the frames `xs`, in order. */
  function Runs(sl: ScoreLib, s: AmenityState, xs: seq<Frame>): (r: AmenityState)
    requires s.Valid() && forall k :: 0 <= k < |xs| ==> xs[k].Valid()
    ensures r.Valid()
    decreases |xs|
  {
    if xs == [] then s else Runs(sl, AmenityStep(sl, s, xs[0]).state, xs[1..])
  }

  /** However many calls follow, the top features and the corpus stay those frozen by the
      first successful call, and the flag stays set. */
  lemma {:induction false} FeaturesFrozen(sl: ScoreLib, s: AmenityState, xs: seq<Frame>)
    requires s.Valid() && s.fitted && forall k :: 0 <= k < |xs| ==> xs[k].Valid()
    ensures Runs(sl, s, xs).fitted
    ensures Runs(sl, s, xs).top == s.top && Runs(sl, s, xs).corpus == s.corpus
    decreases |xs|
  {
    if xs != [] {
      LaterCallsKeepFeatures(sl, s, xs[0]);
      FeaturesFrozen(sl, AmenityStep(sl, s, xs[0]).state, xs[1..]);
    }
  }

  // ---------------------------------------------------------------- lines 318-319

  /** `tfidf_matrix.sum(axis=1)` assigned to a frame of height `h`: rows are matched by
      position, and rows the matrix lacks get NaN. */
  function Align(vals: seq<real>, h: nat): (r: seq<Cell>)
    ensures |r| == h
    ensures forall i :: 0 <= i < h ==> r[i] == if i < |vals| then Num(vals[i]) else Missing
  {
    seq(h, i requires 0 <= i < h => if i < |vals| then Num(vals[i]) else Missing)
  }

  /** `amenity_scaler.transform` of a score column: each score through the scaler fitted
      on `fitted`, NaN kept. */
  function Standardized(standardize: (seq<real>, real) -> real, fitted: seq<real>, col: seq<Cell>): (r: seq<Cell>)
    ensures |r| == |col|
    ensures forall i :: 0 <= i < |col| ==>
      r[i] == if col[i].Num? then Num(standardize(fitted, col[i].x)) else Missing
  {
    MapCells(col, (c: Cell) => if c.Num? then Num(standardize(fitted, c.x)) else Missing)
  }

  /** Lines 318-319: the score is recomputed from the stored matrix (an AttributeError when
      no matrix was ever stored) and then standardized by the last-fitted scaler (an error
      when it was never fitted). */
  function AmenityScore(sl: ScoreLib, s: AmenityState, x: Frame): (r: Result<Frame>)
    requires x.Valid()
    ensures s.matrix.None? ==> r == Err(AttributeError("sum"))
    ensures s.matrix.Some? && s.scaler.None? ==> r == Err(NotFitted)
    ensures s.matrix.Some? && s.scaler.Some? ==> r.Ok?
    ensures r.Ok? ==> r.value.Valid() && r.value.height == x.height
    ensures r.Ok? ==> Untouched(x, r.value, {"amenity_score", "amenity_score_normalized"})
    ensures r.Ok? ==> "amenity_score" in r.value.cols && "amenity_score_normalized" in r.value.cols
    ensures r.Ok? ==> r.value.cols["amenity_score"] == Align(RowSums(s.matrix.value), x.height)
    ensures r.Ok? ==> r.value.cols["amenity_score_normalized"]
                      == Standardized(sl.standardize, s.scaler.value, Align(RowSums(s.matrix.value), x.height))
  {
    if s.matrix.None? then Err(AttributeError("sum"))
    else if s.scaler.None? then Err(NotFitted)
    else
      var scores := Align(RowSums(s.matrix.value), x.height);
      Ok(Set2(x, "amenity_score", scores, "amenity_score_normalized", Standardized(sl.standardize, s.scaler.value, scores)))
  }

  /** After a fitted call on a non-empty frame, lines 318-319 succeed on its result, every
      row's score is the sum of its document's weights for the frozen features, and the
      normalized score uses the scaler just fitted on these scores. */
  lemma ScoresAfterFittedCall(sl: ScoreLib, s: AmenityState, x: Frame, i: nat)
    requires s.Valid() && x.Valid() && s.fitted && x.Has("amenities") && i < x.height
    ensures var t := AmenityStep(sl, s, x); t.out.Ok? && AmenityScore(sl, t.state, t.out.value).Ok?
    ensures var t := AmenityStep(sl, s, x);
      var docs := Documents(Prepared(sl.show, x).value);
      var score := Sum(Row(sl.weight, s.corpus.value, s.top.value, docs[i]));
      AmenityScore(sl, t.state, t.out.value).value.cols["amenity_score"][i] == Num(score)
      && AmenityScore(sl, t.state, t.out.value).value.cols["amenity_score_normalized"][i]
         == Num(sl.standardize(RowSums(t.state.matrix.value), score))
  {
    var t := AmenityStep(sl, s, x);
    var m := t.state.matrix.value;
    assert RowSums(m)[i] == Sum(m[i]);
    assert Align(RowSums(m), x.height)[i] == Num(Sum(m[i]));
  }
}
