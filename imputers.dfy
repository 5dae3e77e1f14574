/**
 * The column loops of `DataPreprocessor.fit` and `transform` (preprocessor.py) over the
 * imputer table, the boolean columns and the ordinal encoders. Each loop is a method
 * proved equal to a fold (`...Over`) over its table, and the fold's effect on
 * the frame is proved once, as a lemma.
 */
module Imputers {
  import opened Wrappers
  import opened Frames
  import opened Features

  /** The two strategies of `self.imputers`. */
  datatype Strategy = Median | FillWith(fill: Cell)

  /** The keys of `self.imputers` (lines 40-54), in the source's order. */
  const ImputerCols: seq<string> :=
    ["host_response_rate", "review_scores_rating", "first_review", "last_review",
     "thumbnail_url", "neighbourhood", "zipcode", "bathrooms", "bedrooms", "beds",
     "host_has_profile_pic", "host_identity_verified", "host_since"]

  /** `self.imputers[col]`'s strategy, for a key `col` of `self.imputers`. */
  function StrategyOf(col: string): Strategy
  {
    if col in {"review_scores_rating", "bathrooms", "bedrooms", "beds"} then Median
    else if col == "host_response_rate" then FillWith(Num(0.0))
    else if col in {"first_review", "last_review", "host_since"} then FillWith(Text("2000-01-01"))
    else if col == "thumbnail_url" then FillWith(Text("missing_thumbnail"))
    else if col == "neighbourhood" then FillWith(Text("missing"))
    else if col == "zipcode" then FillWith(Text("00000"))
    else FillWith(Text("f"))
  }

  /** Thirteen distinct columns; the review and host dates are filled with 2000-01-01 and the
      two host flags with "f". */
  lemma ImputerTable()
    ensures |ImputerCols| == 13 && Distinct(ImputerCols)
    ensures StrategyOf("first_review") == StrategyOf("last_review") == StrategyOf("host_since")
            == FillWith(Text("2000-01-01"))
    ensures StrategyOf("host_has_profile_pic") == StrategyOf("host_identity_verified") == FillWith(Text("f"))
  {
  }

  /** A frame with every imputed column has `beds` and `review_scores_rating`. */
  lemma ImputedHas(x: Frame)
    requires x.HasAll(ImputerCols)
    ensures "beds" in x.cols && "review_scores_rating" in x.cols
  {
    assert ImputerCols[9] == "beds" && ImputerCols[1] == "review_scores_rating";
  }

  /** What fitting a `SimpleImputer` on a column and assigning its transform (lines
      211-212) gives: the fill value it learns, or the ValueError raised on the way. A
      column without rows is refused; a median imputer drops a column without an observed
      value, so the assignment of its empty output fails; `median` (the median of the
      column's numbers) refuses non-numeric data by giving None; a string constant is
      refused for a column of numeric dtype. */
  function Learn(median: seq<Cell> -> Option<real>, s: Strategy, col: seq<Cell>): (r: Result<Cell>)
    ensures r.Err? ==> r.error == ValueError
    ensures r.Ok? <==>
      |col| > 0
      && match s
         case Median => (exists i :: 0 <= i < |col| && !col[i].Missing?) && median(col).Some?
         case FillWith(v) => !(v.Text? && forall i :: 0 <= i < |col| ==> IsNumeric(col[i]))
    ensures r.Ok? && s.Median? ==> r.value == Num(median(col).value)
    ensures r.Ok? && s.FillWith? ==> r.value == s.fill
  {
    if |col| == 0 then Err(ValueError)
    else
      match s
      case Median =>
        if forall i :: 0 <= i < |col| ==> col[i].Missing? then Err(ValueError)
        else if median(col).None? then Err(ValueError)
        else Ok(Num(median(col).value))
      case FillWith(v) =>
        if v.Text? && forall i :: 0 <= i < |col| ==> IsNumeric(col[i]) then Err(ValueError) else Ok(v)
  }

  /** The imputer of `c` can be fitted on the frame's column, and its output assigned. */
  predicate Learnable(median: seq<Cell> -> Option<real>, x: Frame, c: string) {
    c in x.cols && Learn(median, StrategyOf(c), x.cols[c]).Ok?
  }

  /** The labels of `cols` whose imputer can be fitted on the frame. */
  function LearnableCols(median: seq<Cell> -> Option<real>, x: Frame, cols: seq<string>): (r: set<string>)
    ensures forall c :: c in r <==> c in cols && Learnable(median, x, c)
  {
    set c | c in cols && Learnable(median, x, c)
  }

  /** What lines 211-212 raise for a label whose imputer cannot be fitted: a KeyError for a
      column the frame lacks, and otherwise the ValueError of `Learn`. */
  function FitError(x: Frame, c: string): PyError {
    if c in x.cols then ValueError else KeyError(c)
  }

  /** `SimpleImputer.transform` with a learned fill value: missing cells get the fill value
      and present cells are left as they are. */
  function Impute(fill: Cell, col: seq<Cell>): (r: seq<Cell>)
    ensures |r| == |col|
    ensures forall i :: 0 <= i < |col| ==> (col[i].Missing? ==> r[i] == fill) && (!col[i].Missing? ==> r[i] == col[i])
  {
    MapCells(col, (c: Cell) => if c.Missing? then fill else c)
  }

  /** Imputing twice with the same value changes nothing more. */
  lemma ImputeIdempotent(fill: Cell, col: seq<Cell>)
    ensures Impute(fill, Impute(fill, col)) == Impute(fill, col)
    ensures !fill.Missing? ==> forall i :: 0 <= i < |col| ==> !Impute(fill, col)[i].Missing?
  {
  }

  /** The column `transform` gives an imputed label (lines 242-245): the imputed column
      when the frame has it, otherwise a new column of `transform([[None]])[0][0]`. A
      median imputer reads None as NaN and gives its median; a constant imputer, whose
      missing marker is NaN, does not count None as missing and gives None back, so the new
      column is all missing. */
  function Imputed(fill: Cell, x: Frame, col: string): (r: seq<Cell>)
    requires x.Valid()
    ensures |r| == x.height
    ensures col !in x.cols ==> forall i :: 0 <= i < |r| ==> r[i] == if StrategyOf(col).Median? then fill else Missing
  {
    if col in x.cols then Impute(fill, x.cols[col]) else Constant(x.height, if StrategyOf(col).Median? then fill else Missing)
  }

  // ---------------------------------------------------------------- transform-time loop

  /** The imputer of `col` raises in `transform`: it was never fitted, or the frame has the
      column but no rows (scikit-learn refuses an input without samples). */
  predicate Refused(fills: map<string, Cell>, x: Frame, col: string) {
    col !in fills || (x.height == 0 && col in x.cols)
  }

  /** What a refusing imputer raises: NotFitted is checked before the input. */
  function RefusalError(fills: map<string, Cell>, col: string): PyError {
    if col !in fills then NotFitted else ValueError
  }

  /** One iteration of the loop at lines 241-245. */
  function ImputeStep(fills: map<string, Cell>, x: Frame, col: string): (r: Result<Frame>)
    requires x.Valid()
    ensures r.Ok? ==> r.value.Valid() && r.value.height == x.height
  {
    if col !in fills then Err(NotFitted)
    else if x.height == 0 && col in x.cols then Err(ValueError)
    else Ok(x.Set(col, Imputed(fills[col], x, col)))
  }

  /** The frame after the loop at lines 241-245 has run over `cols`. */
  function ImputeOver(fills: map<string, Cell>, x: Frame, cols: seq<string>): (r: Result<Frame>)
    requires x.Valid()
    ensures r.Ok? ==> r.value.Valid() && r.value.height == x.height
    decreases |cols|
  {
    if cols == [] then Ok(x)
    else
      var y :- ImputeOver(fills, x, cols[..|cols| - 1]);
      ImputeStep(fills, y, cols[|cols| - 1])
  }

  /** After imputing distinct columns: the loop fails exactly when one of them is refused;
      otherwise each of them holds the imputed input column (or the new column, when the
      input lacked it), and every other column is the input's. */
  lemma {:induction false} ImputeOverEffect(fills: map<string, Cell>, x: Frame, cols: seq<string>)
    requires x.Valid() && Distinct(cols)
    ensures ImputeOver(fills, x, cols).Ok? <==> forall c :: c in cols ==> !Refused(fills, x, c)
    ensures ImputeOver(fills, x, cols).Ok? ==>
      var y := ImputeOver(fills, x, cols).value;
      (forall c :: c in cols ==> c in y.cols && y.cols[c] == Imputed(fills[c], x, c))
      && (forall c :: c !in cols ==> (c in y.cols <==> c in x.cols))
      && (forall c :: c !in cols && c in x.cols ==> y.cols[c] == x.cols[c])
      && ((forall c :: c in cols ==> c in x.cols) ==> y.names == x.names)
    decreases |cols|
  {
    if cols != [] {
      var init, col := cols[..|cols| - 1], cols[|cols| - 1];
      assert cols == init + [col];
      assert Distinct(init);
      ImputeOverEffect(fills, x, init);
      var r := ImputeOver(fills, x, init);
      if r.Ok? {
        var y := r.value;
        assert col in y.cols <==> col in x.cols;
        if !Refused(fills, x, col) {
          assert Imputed(fills[col], y, col) == Imputed(fills[col], x, col);
        }
      }
    }
  }

  /** A failing loop over distinct columns raises the error of the first refused one. */
  lemma {:induction false} ImputeOverError(fills: map<string, Cell>, x: Frame, cols: seq<string>)
    requires x.Valid() && Distinct(cols)
    ensures ImputeOver(fills, x, cols).Err? ==>
      exists k :: 0 <= k < |cols| && Refused(fills, x, cols[k]) && (forall j :: 0 <= j < k ==> !Refused(fills, x, cols[j]))
                  && ImputeOver(fills, x, cols).error == RefusalError(fills, cols[k])
    decreases |cols|
  {
    if cols != [] {
      var init, col := cols[..|cols| - 1], cols[|cols| - 1];
      assert cols == init + [col];
      assert Distinct(init);
      ImputeOverError(fills, x, init);
      var r := ImputeOver(fills, x, init);
      if r.Ok? {
        ImputeOverEffect(fills, x, init);
        assert col in r.value.cols <==> col in x.cols;
        forall j | 0 <= j < |init| ensures !Refused(fills, x, cols[j]) {
          assert cols[j] == init[j];
        }
      } else {
        var k :| 0 <= k < |init| && Refused(fills, x, init[k]) && (forall j :: 0 <= j < k ==> !Refused(fills, x, init[j]))
                 && r.error == RefusalError(fills, init[k]);
        assert forall j :: 0 <= j <= k ==> cols[j] == init[j];
      }
    }
  }

  /** The loop reads only the fill values of the columns it imputes. */
  lemma {:induction false} ImputeOverFills(f1: map<string, Cell>, f2: map<string, Cell>, x: Frame, cols: seq<string>)
    requires x.Valid()
    requires forall c :: c in cols ==> (c in f1 <==> c in f2) && (c in f1 ==> f1[c] == f2[c])
    ensures ImputeOver(f1, x, cols) == ImputeOver(f2, x, cols)
    decreases |cols|
  {
    if cols != [] {
      ImputeOverFills(f1, f2, x, cols[..|cols| - 1]);
    }
  }

  /** Once the loop has failed, later columns are not visited. */
  lemma {:induction false} ImputeErrorStops(fills: map<string, Cell>, x: Frame, cols: seq<string>, k: nat)
    requires x.Valid() && k <= |cols| && ImputeOver(fills, x, cols[..k]).Err?
    ensures ImputeOver(fills, x, cols) == ImputeOver(fills, x, cols[..k])
    decreases |cols|
  {
    if |cols| > k {
      var init := cols[..|cols| - 1];
      assert init[..k] == cols[..k];
      ImputeErrorStops(fills, x, init, k);
    } else {
      assert cols[..k] == cols;
    }
  }

  /** The loop at lines 241-245 over the imputed columns `cols` (the keys of
      `self.imputers`, `ImputerCols`), in order. */
  method ImputeColumns(fills: map<string, Cell>, x: Frame, cols: seq<string>) returns (r: Result<Frame>)
    requires x.Valid()
    ensures r == ImputeOver(fills, x, cols)
  {
    var y := x;
    var i := 0;
    while i < |cols|
      invariant 0 <= i <= |cols|
      invariant y.Valid() && ImputeOver(fills, x, cols[..i]) == Ok(y)
    {
      var col := cols[i];
      assert cols[..i + 1][..i] == cols[..i];
      if col !in fills {
        ImputeErrorStops(fills, x, cols, i + 1);
        return Err(NotFitted);
      }
      if y.height == 0 && col in y.cols {
        ImputeErrorStops(fills, x, cols, i + 1);
        return Err(ValueError);
      }
      y := y.Set(col, Imputed(fills[col], y, col));
      i := i + 1;
    }
    assert cols[..i] == cols;
    return Ok(y);
  }

  // ---------------------------------------------------------------- fit-time loop

  /** The fill values learned from the columns of `cols` that the frame has. */
  function LearnedFills(median: seq<Cell> -> Option<real>, x: Frame, cols: seq<string>): (r: map<string, Cell>)
    ensures forall c :: c in r <==> c in cols && Learnable(median, x, c)
    ensures forall c :: c in r ==>
      c in x.cols && Learn(median, StrategyOf(c), x.cols[c]).Ok? && r[c] == Learn(median, StrategyOf(c), x.cols[c]).value
  {
    map c | c in cols && Learnable(median, x, c) :: Learn(median, StrategyOf(c), x.cols[c]).value
  }

  /** Learning one more present column adds exactly its fill value. */
  lemma LearnedFillsExtend(median: seq<Cell> -> Option<real>, x: Frame, cols: seq<string>, i: nat)
    requires i < |cols| && Learnable(median, x, cols[i])
    ensures LearnedFills(median, x, cols[..i + 1])
            == LearnedFills(median, x, cols[..i])[cols[i] := Learn(median, StrategyOf(cols[i]), x.cols[cols[i]]).value]
  {
    assert forall c :: c in cols[..i + 1] <==> c in cols[..i] || c == cols[i];
  }

  /** One iteration of the loop at lines 210-212, seen against the transform-time loop: the
      column has not been touched yet, and fitting then imputing it extends the imputation
      by that column with the value just learned. */
  lemma FitImputeStep(fills: map<string, Cell>, fill: Cell, x: Frame, cols: seq<string>, i: nat, y: Frame)
    requires x.Valid() && Distinct(cols) && i < |cols|
    requires ImputeOver(fills, x, cols[..i]) == Ok(y)
    ensures y.Valid() && (cols[i] in y.cols <==> cols[i] in x.cols)
    ensures cols[i] in x.cols ==> y.cols[cols[i]] == x.cols[cols[i]]
    ensures cols[i] in y.cols && x.height > 0 ==>
      ImputeOver(fills[cols[i] := fill], x, cols[..i + 1]) == Ok(y.Set(cols[i], Impute(fill, y.cols[cols[i]])))
  {
    var prefix, col, f2 := cols[..i], cols[i], fills[cols[i] := fill];
    var longer := cols[..i + 1];
    assert longer[..|longer| - 1] == prefix && longer[|longer| - 1] == col;
    assert col !in prefix by {
      forall k | 0 <= k < i ensures prefix[k] != col {
        assert prefix[k] == cols[k];
      }
    }
    assert Distinct(prefix);
    ImputeOverEffect(fills, x, prefix);
    ImputeOverFills(fills, f2, x, prefix);
    if col in y.cols && x.height > 0 {
      assert ImputeOver(f2, x, longer) == ImputeStep(f2, y, col);
    }
  }

  /** The loop at lines 210-212: each imputer is fitted on its column and then imputes it;
      the first column the frame lacks raises a KeyError, and the first whose imputer cannot
      be fitted a ValueError. On success, the frame is what the transform-time loop makes of
      the input with the learned fill values; on failure, the imputers before the failing
      column have been fitted. `cols` is `ImputerCols`. */
  method FitImputers(median: seq<Cell> -> Option<real>, x: Frame, cols: seq<string>)
    returns (fills: map<string, Cell>, r: Result<Frame>)
    requires x.Valid() && Distinct(cols)
    ensures r.Ok? <==> forall c :: c in cols ==> Learnable(median, x, c)
    ensures r.Ok? ==> fills == LearnedFills(median, x, cols) && r == ImputeOver(fills, x, cols)
    ensures r.Err? ==>
      exists k :: 0 <= k < |cols| && !Learnable(median, x, cols[k]) && r.error == FitError(x, cols[k])
                  && (forall j :: 0 <= j < k ==> Learnable(median, x, cols[j]))
                  && fills == LearnedFills(median, x, cols[..k])
  {
    fills := map[];
    var y := x;
    var i := 0;
    while i < |cols|
      invariant 0 <= i <= |cols|
      invariant forall j :: 0 <= j < i ==> Learnable(median, x, cols[j])
      invariant fills == LearnedFills(median, x, cols[..i])
      invariant ImputeOver(fills, x, cols[..i]) == Ok(y)
    {
      var col := cols[i];
      var learned := if col in y.cols then Learn(median, StrategyOf(col), y.cols[col]) else Err(KeyError(col));
      var fill := if learned.Ok? then learned.value else Missing;
      FitImputeStep(fills, fill, x, cols, i, y);
      if learned.Err? {
        assert !Learnable(median, x, col) && learned.error == FitError(x, col);
        return fills, Err(learned.error);
      }
      assert x.height == |y.cols[col]| > 0;
      LearnedFillsExtend(median, x, cols, i);
      fills := fills[col := fill];
      y := y.Set(col, Impute(fill, y.cols[col]));
      i := i + 1;
    }
    assert cols[..i] == cols;
    return fills, Ok(y);
  }

  /** No imputer ever learns a missing fill value. */
  lemma LearnedNotMissing(median: seq<Cell> -> Option<real>, c: string, col: seq<Cell>)
    ensures Learn(median, StrategyOf(c), col).Ok? ==> !Learn(median, StrategyOf(c), col).value.Missing?
  {
  }

  /** After a fit whose imputer loop reached its end on `x`, the imputer loop of
      `transform` fails on a frame `x2` exactly when `x2` has no rows but has one of the
      imputed columns, and then with a ValueError. Otherwise every imputed column is
      present; none of its cells is missing when `x2` had the column or its imputer is a
      median one, and all of them are when `x2` lacked it and its imputer is a constant
      one. */
  lemma FittedImputeComplete(median: seq<Cell> -> Option<real>, older: map<string, Cell>, x: Frame, x2: Frame,
                              cols: seq<string>)
    requires x.Valid() && x2.Valid() && Distinct(cols) && forall c :: c in cols ==> Learnable(median, x, c)
    ensures var fills := older + LearnedFills(median, x, cols);
      ImputeOver(fills, x2, cols).Ok? <==> x2.height > 0 || forall c :: c in cols ==> c !in x2.cols
    ensures var fills := older + LearnedFills(median, x, cols);
      ImputeOver(fills, x2, cols).Err? ==> ImputeOver(fills, x2, cols).error == ValueError
    ensures var fills := older + LearnedFills(median, x, cols);
      ImputeOver(fills, x2, cols).Ok? ==>
      var y := ImputeOver(fills, x2, cols).value;
      y.HasAll(cols)
      && (forall c, i :: c in cols && (c in x2.cols || StrategyOf(c).Median?) && 0 <= i < |y.cols[c]| ==>
            !y.cols[c][i].Missing?)
      && (forall c, i :: c in cols && c !in x2.cols && !StrategyOf(c).Median? && 0 <= i < |y.cols[c]| ==>
            y.cols[c][i].Missing?)
  {
    var fills := older + LearnedFills(median, x, cols);
    ImputeOverEffect(fills, x2, cols);
    ImputeOverError(fills, x2, cols);
    assert forall c :: c in cols ==> c in fills;
    if ImputeOver(fills, x2, cols).Ok? {
      forall c | c in cols {
        ImputedCells(median, x, x2, c, fills[c]);
      }
    }
  }

  /** The column an imputer fitted on `x` gives `x2`: no cell missing when `x2` has the
      column or the imputer is a median one, every cell missing otherwise. */
  lemma ImputedCells(median: seq<Cell> -> Option<real>, x: Frame, x2: Frame, c: string, fill: Cell)
    requires x.Valid() && x2.Valid() && Learnable(median, x, c) && fill == Learn(median, StrategyOf(c), x.cols[c]).value
    ensures var col := Imputed(fill, x2, c);
      ((c in x2.cols || StrategyOf(c).Median?) ==> forall i :: 0 <= i < |col| ==> !col[i].Missing?)
      && (c !in x2.cols && !StrategyOf(c).Median? ==> forall i :: 0 <= i < |col| ==> col[i].Missing?)
  {
    LearnedNotMissing(median, c, x.cols[c]);
  }

  // ---------------------------------------------------------------- boolean columns

  /** The boolean column `col` raises at lines 271-273: `bool_encoders` was never
      assigned or lacks the column, or the frame has no rows (the encoder refuses an input
      without samples, even the column of "f" just added). */
  predicate BoolRefused(encoders: Option<set<string>>, x: Frame, col: string) {
    encoders.None? || col !in encoders.value || x.height == 0
  }

  /** What a refused boolean column raises, in the order the lookups happen. */
  function BoolError(encoders: Option<set<string>>, col: string): PyError {
    if encoders.None? then AttributeError("bool_encoders")
    else if col !in encoders.value then KeyError(col)
    else ValueError
  }

  /** One iteration of the loop at lines 270-273: an absent column is first filled with
      "f", then the column is encoded by its fitted encoder. */
  function BoolStep(encoders: Option<set<string>>, x: Frame, col: string): (r: Result<Frame>)
    requires x.Valid()
    ensures r.Ok? ==> r.value.Valid() && r.value.height == x.height
  {
    var y := if col in x.cols then x else x.Set(col, Constant(x.height, Text("f")));
    if encoders.None? then Err(AttributeError("bool_encoders"))
    else if col !in encoders.value then Err(KeyError(col))
    else if x.height == 0 then Err(ValueError)
    else Ok(y.Set(col, MapCells(y.cols[col], BoolEncode)))
  }

  /** The frame after the loop at lines 270-273 has run over `cols`. */
  function BoolOver(encoders: Option<set<string>>, x: Frame, cols: seq<string>): (r: Result<Frame>)
    requires x.Valid()
    ensures r.Ok? ==> r.value.Valid() && r.value.height == x.height
    decreases |cols|
  {
    if cols == [] then Ok(x)
    else
      var y :- BoolOver(encoders, x, cols[..|cols| - 1]);
      BoolStep(encoders, y, cols[|cols| - 1])
  }

  /** The column a boolean label ends with: the input column, or "f" everywhere when the
      input lacked it, through the encoder. */
  function BoolColumn(x: Frame, col: string): (r: seq<Cell>)
    requires x.Valid()
    ensures |r| == x.height
    ensures forall i :: 0 <= i < |r| ==> r[i].Num? && r[i].x in {-1.0, 0.0, 1.0}
    ensures col !in x.cols ==> forall i :: 0 <= i < |r| ==> r[i] == Num(0.0)
    ensures col in x.cols ==> forall i :: 0 <= i < |r| ==> r[i] == BoolEncode(x.cols[col][i])
  {
    MapCells(if col in x.cols then x.cols[col] else Constant(x.height, Text("f")), BoolEncode)
  }

  /** The loop over distinct boolean columns fails exactly when one of them is refused,
      and then with the error of the first refused one. */
  lemma {:induction false} BoolOverError(encoders: Option<set<string>>, x: Frame, cols: seq<string>)
    requires x.Valid()
    ensures BoolOver(encoders, x, cols).Ok? <==> forall c :: c in cols ==> !BoolRefused(encoders, x, c)
    ensures BoolOver(encoders, x, cols).Err? ==>
      exists k :: 0 <= k < |cols| && BoolRefused(encoders, x, cols[k])
                  && (forall j :: 0 <= j < k ==> !BoolRefused(encoders, x, cols[j]))
                  && BoolOver(encoders, x, cols).error == BoolError(encoders, cols[k])
    decreases |cols|
  {
    if cols != [] {
      var init, col := cols[..|cols| - 1], cols[|cols| - 1];
      assert cols == init + [col];
      BoolOverError(encoders, x, init);
      var r := BoolOver(encoders, x, init);
      assert forall c :: c in cols <==> c in init || c == col;
      if r.Ok? {
        assert BoolOver(encoders, x, cols) == BoolStep(encoders, r.value, col);
        assert BoolRefused(encoders, r.value, col) == BoolRefused(encoders, x, col);
        forall j | 0 <= j < |init| ensures !BoolRefused(encoders, x, cols[j]) {
          assert cols[j] == init[j];
        }
      } else {
        var k :| 0 <= k < |init| && BoolRefused(encoders, x, init[k])
                 && (forall j :: 0 <= j < k ==> !BoolRefused(encoders, x, init[j]))
                 && r.error == BoolError(encoders, init[k]);
        assert forall j :: 0 <= j <= k ==> cols[j] == init[j];
      }
    }
  }

  /** After a successful loop over distinct boolean columns, each column is encoded (all
      zeros where it was absent) and the rest of the frame is unchanged. */
  lemma {:induction false} BoolOverEffect(encoders: Option<set<string>>, x: Frame, cols: seq<string>)
    requires x.Valid() && Distinct(cols)
    ensures BoolOver(encoders, x, cols).Ok? ==>
      var y := BoolOver(encoders, x, cols).value;
      (forall c :: c in cols ==> c in y.cols && y.cols[c] == BoolColumn(x, c))
      && (forall c :: c !in cols ==> (c in y.cols <==> c in x.cols))
      && (forall c :: c !in cols && c in x.cols ==> y.cols[c] == x.cols[c])
    decreases |cols|
  {
    if cols != [] {
      var init, col := cols[..|cols| - 1], cols[|cols| - 1];
      assert cols == init + [col];
      assert Distinct(init);
      BoolOverEffect(encoders, x, init);
      var r := BoolOver(encoders, x, init);
      assert forall c :: c in cols <==> c in init || c == col;
      if r.Ok? && BoolStep(encoders, r.value, col).Ok? {
        var y := r.value;
        assert BoolOver(encoders, x, cols) == BoolStep(encoders, y, col);
        assert col in y.cols <==> col in x.cols;
        var z := if col in y.cols then y else y.Set(col, Constant(y.height, Text("f")));
        assert z.cols[col] == if col in x.cols then x.cols[col] else Constant(x.height, Text("f"));
      }
    }
  }

  /** Once the loop has failed, later columns are not visited. */
  lemma {:induction false} BoolErrorStops(encoders: Option<set<string>>, x: Frame, cols: seq<string>, k: nat)
    requires x.Valid() && k <= |cols| && BoolOver(encoders, x, cols[..k]).Err?
    ensures BoolOver(encoders, x, cols) == BoolOver(encoders, x, cols[..k])
    decreases |cols|
  {
    if |cols| > k {
      var init := cols[..|cols| - 1];
      assert init[..k] == cols[..k];
      BoolErrorStops(encoders, x, init, k);
    } else {
      assert cols[..k] == cols;
    }
  }

  /** The loop at lines 270-273. */
  method EncodeBools(encoders: Option<set<string>>, x: Frame) returns (r: Result<Frame>)
    requires x.Valid()
    ensures r == BoolOver(encoders, x, BoolCols)
  {
    var y := x;
    var i := 0;
    while i < |BoolCols|
      invariant 0 <= i <= |BoolCols|
      invariant y.Valid() && BoolOver(encoders, x, BoolCols[..i]) == Ok(y)
    {
      var col := BoolCols[i];
      assert BoolCols[..i + 1][..i] == BoolCols[..i];
      assert BoolOver(encoders, x, BoolCols[..i + 1]) == BoolStep(encoders, y, col);
      var z := y;
      if col !in z.cols {
        z := z.Set(col, Constant(z.height, Text("f")));
      }
      if encoders.None? {
        BoolErrorStops(encoders, x, BoolCols, i + 1);
        return Err(AttributeError("bool_encoders"));
      }
      if col !in encoders.value {
        BoolErrorStops(encoders, x, BoolCols, i + 1);
        return Err(KeyError(col));
      }
      if z.height == 0 {
        BoolErrorStops(encoders, x, BoolCols, i + 1);
        return Err(ValueError);
      }
      y := z.Set(col, MapCells(z.cols[col], BoolEncode));
      i := i + 1;
    }
    assert BoolCols[..i] == BoolCols;
    return Ok(y);
  }

  /** `encoders` are the boolean columns before the first one that `keys` lacks: what the
      loop at lines 223-227 has fitted when that column raises. */
  ghost predicate EncodersBefore(encoders: set<string>, keys: set<string>) {
    exists k :: 0 <= k < |BoolCols| && BoolCols[k] !in keys && (forall j :: 0 <= j < k ==> BoolCols[j] in keys)
                && encoders == set c | c in BoolCols[..k]
  }

  /** The loop at lines 223-227: `bool_encoders` starts empty and gains one fitted encoder
      per boolean column, in order; a column the frame lacks raises a KeyError and leaves the
      encoders fitted so far. */
  method FitBools(x: Frame) returns (encoders: set<string>, r: Outcome)
    requires x.Valid()
    ensures r.Pass? <==> forall c :: c in BoolCols ==> c in x.cols
    ensures r.Pass? ==> encoders == BoolKeys
    ensures r.Fail? ==>
      exists k :: 0 <= k < |BoolCols| && BoolCols[k] !in x.cols && r.error == KeyError(BoolCols[k])
                  && (forall j :: 0 <= j < k ==> BoolCols[j] in x.cols)
                  && encoders == set c | c in BoolCols[..k]
    ensures r.Fail? ==> r == Fail(KeyError(FirstAbsent(BoolCols, x.cols.Keys))) && EncodersBefore(encoders, x.cols.Keys)
  {
    encoders := {};
    var i := 0;
    while i < |BoolCols|
      invariant 0 <= i <= |BoolCols|
      invariant forall j :: 0 <= j < i ==> BoolCols[j] in x.cols
      invariant encoders == set c | c in BoolCols[..i]
    {
      var col := BoolCols[i];
      assert BoolCols[..i + 1] == BoolCols[..i] + [col];
      if col !in x.cols {
        FirstAbsentIs(BoolCols, x.cols.Keys, i);
        return encoders, Fail(KeyError(col));
      }
      encoders := encoders + {col};
      i := i + 1;
    }
    assert BoolCols[..i] == BoolCols;
    return encoders, Pass;
  }

  /** Encoders fitted by a successful fit let the transform-time loop through any frame
      with rows, and it then encodes every boolean column; on a frame without rows the
      first encoder raises a ValueError. */
  lemma FittedBoolsEncode(y: Frame)
    requires y.Valid()
    ensures BoolOver(Some(BoolKeys), y, BoolCols).Ok? <==> y.height > 0
    ensures y.height == 0 ==> BoolOver(Some(BoolKeys), y, BoolCols) == Err(ValueError)
    ensures y.height > 0 ==> forall c :: c in BoolCols ==>
      c in BoolOver(Some(BoolKeys), y, BoolCols).value.cols
      && BoolOver(Some(BoolKeys), y, BoolCols).value.cols[c] == BoolColumn(y, c)
  {
    BoolOverEffect(Some(BoolKeys), y, BoolCols);
    BoolOverError(Some(BoolKeys), y, BoolCols);
    assert BoolCols[0] in BoolCols;
  }

  // ---------------------------------------------------------------- ordinal encoders

  /** One iteration of the loop at lines 275-277: only a column carrying the encoder's own
      name is mapped. */
  function EncodeStep(x: Frame, name: string): (r: Frame)
    requires x.Valid() && name in EncoderNames
    ensures r.Valid() && r.height == x.height
  {
    if name in x.cols then x.Set(name, MapCells(x.cols[name], (c: Cell) => MapEncode(Encoder(name), c))) else x
  }

  /** The frame after the loop at lines 275-277 has run over `names`. */
  function EncodeOver(x: Frame, names: seq<string>): (r: Frame)
    requires x.Valid() && forall n :: n in names ==> n in EncoderNames
    ensures r.Valid() && r.height == x.height
    decreases |names|
  {
    if names == [] then x
    else EncodeStep(EncodeOver(x, names[..|names| - 1]), names[|names| - 1])
  }

  /** After distinct encoders: each encoder's column, where the frame has one, is mapped
      through its table (values outside the table become NaN), no column is added, and every
      other column is unchanged. */
  lemma {:induction false} EncodeOverEffect(x: Frame, names: seq<string>)
    requires x.Valid() && Distinct(names) && forall n :: n in names ==> n in EncoderNames
    ensures var y := EncodeOver(x, names);
      y.names == x.names
      && (forall c :: c in y.cols <==> c in x.cols)
      && (forall n :: n in names && n in x.cols ==>
            y.cols[n] == MapCells(x.cols[n], (c: Cell) => MapEncode(Encoder(n), c)))
      && (forall c :: c !in names && c in x.cols ==> y.cols[c] == x.cols[c])
    decreases |names|
  {
    if names != [] {
      var init, name := names[..|names| - 1], names[|names| - 1];
      assert names == init + [name];
      assert Distinct(init);
      EncodeOverEffect(x, init);
    }
  }

  /** The loop at lines 275-277. */
  method EncodeAll(x: Frame) returns (r: Frame)
    requires x.Valid()
    ensures r == EncodeOver(x, EncoderNames)
  {
    r := x;
    var i := 0;
    while i < |EncoderNames|
      invariant 0 <= i <= |EncoderNames|
      invariant r.Valid() && r == EncodeOver(x, EncoderNames[..i])
    {
      var name := EncoderNames[i];
      assert EncoderNames[..i + 1][..i] == EncoderNames[..i];
      if name in r.cols {
        r := r.Set(name, MapCells(r.cols[name], (c: Cell) => MapEncode(Encoder(name), c)));
      }
      i := i + 1;
    }
    assert EncoderNames[..i] == EncoderNames;
  }

  /** As written, the cancellation tables are never applied to the policy: no encoder is
      named `cancellation_policy`, so that column comes out unchanged, and the two tables
      map only columns literally named after them. */
  lemma CancellationMapsUnused(x: Frame)
    requires x.Valid() && "cancellation_policy" in x.cols
    ensures "cancellation_policy" in EncodeOver(x, EncoderNames).cols
    ensures EncodeOver(x, EncoderNames).cols["cancellation_policy"] == x.cols["cancellation_policy"]
  {
    assert "cancellation_policy" !in EncoderNames;
    EncodeOverEffect(x, EncoderNames);
  }
}
