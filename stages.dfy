/**
 * The column steps of `DataPreprocessor.transform` (preprocessor.py:247-313) and the final
 * column assembly of `fit` and `transform` (lines 230-233, 321-331). Each step is a
 * function from a frame to a frame whose contract names the columns it writes, what every
 * cell of them is, and that every other column is left alone. Row-wise steps that can
 * raise (`X.apply(..., axis=1)`) report the error of the first failing row.
 */
module Stages {
  import opened Wrappers
  import opened Text
  import opened Frames
  import opened Amenities
  import opened Dates
  import opened Features

  /** A column computed row by row by an operation that may raise: the frame with the
      column set, or the first row's error. */
  function SetRows(x: Frame, col: string, rows: seq<Result<Cell>>): (r: Result<Frame>)
    requires x.Valid() && |rows| == x.height
    ensures r.Ok? <==> forall i :: 0 <= i < |rows| ==> rows[i].Ok?
    ensures r.Ok? ==> r.value.Valid() && r.value.height == x.height && col in r.value.cols
    ensures r.Ok? ==> Untouched(x, r.value, {col}) && forall i :: 0 <= i < |rows| ==> rows[i] == Ok(r.value.cols[col][i])
    ensures r.Err? ==>
      exists k :: 0 <= k < |rows| && rows[k] == Err(r.error) && forall i :: 0 <= i < k ==> rows[i].Ok?
  {
    var values :- Collect(rows);
    Ok(x.Set(col, values))
  }

  // ---------------------------------------------------------------- review dates

  /** A parsed date as a cell: a Timestamp, or NaT. */
  function DayCell(d: Option<int>): (r: Cell)
    ensures r.Day? <==> d.Some?
    ensures r.Day? ==> r.d == d.value
    ensures !r.Day? ==> r.Missing?
  {
    if d.Some? then Day(d.value) else Missing
  }

  /** The columns written at lines 247-254. */
  const ReviewCols: set<string> := {"first_review", "last_review", "missing_review_dates", "review_gap_days"}

  /** A date column parsed leniently. */
  function ParseDays(parse: string -> DateParse, col: seq<Cell>): (r: seq<Option<int>>)
    ensures |r| == |col| && forall i :: 0 <= i < |col| ==> r[i] == Coerce(parse, col[i])
  {
    seq(|col|, i requires 0 <= i < |col| => Coerce(parse, col[i]))
  }

  /** Parsed dates as cells. */
  function DayCells(ds: seq<Option<int>>): (r: seq<Cell>)
    ensures |r| == |ds| && forall i :: 0 <= i < |ds| ==> r[i] == DayCell(ds[i])
  {
    seq(|ds|, i requires 0 <= i < |ds| => DayCell(ds[i]))
  }

  /** `missing_review_dates` of every row. */
  function MissingFlags(f: seq<Option<int>>, l: seq<Option<int>>): (r: seq<Cell>)
    requires |f| == |l|
    ensures |r| == |f| && forall i :: 0 <= i < |f| ==> r[i] == Flag(f[i].None? || l[i].None?)
  {
    seq(|f|, i requires 0 <= i < |f| => Flag(MissingReviewDates(f[i], l[i])))
  }

  /** `review_gap_days` of every row. */
  function Gaps(f: seq<Option<int>>, l: seq<Option<int>>): (r: seq<Cell>)
    requires |f| == |l|
    ensures |r| == |f| && forall i :: 0 <= i < |f| ==> r[i] == Num(ReviewGap(f[i], l[i]) as real)
  {
    seq(|f|, i requires 0 <= i < |f| => Num(ReviewGap(f[i], l[i]) as real))
  }

  /** Lines 247-254: both review dates are parsed leniently, `missing_review_dates` flags a
      row where either is NaT, and `review_gap_days` is their difference on the other rows
      and -1 on the flagged ones. A missing column raises a KeyError. */
  function ReviewDates(parse: string -> DateParse, x: Frame): (r: Result<Frame>)
    requires x.Valid()
    ensures r.Ok? <==> x.Has("first_review") && x.Has("last_review")
    ensures r.Err? ==> r.error == KeyError(if x.Has("first_review") then "last_review" else "first_review")
    ensures r.Ok? ==> r.value.Valid() && r.value.height == x.height && Untouched(x, r.value, ReviewCols)
    ensures r.Ok? ==> forall c :: c in ReviewCols ==> c in r.value.cols
    ensures r.Ok? ==>
      var f, l := ParseDays(parse, x.cols["first_review"]), ParseDays(parse, x.cols["last_review"]);
      r.value.cols["first_review"] == DayCells(f) && r.value.cols["last_review"] == DayCells(l)
      && r.value.cols["missing_review_dates"] == MissingFlags(f, l) && r.value.cols["review_gap_days"] == Gaps(f, l)
  {
    var first :- x.Column("first_review");
    var last :- x.Column("last_review");
    var f, l := ParseDays(parse, first), ParseDays(parse, last);
    Ok(Set4(x, "first_review", DayCells(f), "last_review", DayCells(l),
            "missing_review_dates", MissingFlags(f, l), "review_gap_days", Gaps(f, l)))
  }

  /** The rule of one row of the review columns. */
  lemma ReviewRow(fs: seq<Option<int>>, ls: seq<Option<int>>, i: nat)
    requires |fs| == |ls| && i < |fs|
    ensures MissingFlags(fs, ls)[i] == Flag(true) <==> fs[i].None? || ls[i].None?
    ensures fs[i].None? || ls[i].None? ==> Gaps(fs, ls)[i] == Num(-1.0)
    ensures fs[i].Some? && ls[i].Some? ==> Gaps(fs, ls)[i] == Num((ls[i].value - fs[i].value) as real)
  {
  }

  /** Row by row, `missing_review_dates` is set exactly when a parsed review date is NaT. */
  lemma ReviewFlagRow(parse: string -> DateParse, x: Frame, i: nat)
    requires x.Valid() && i < x.height && ReviewDates(parse, x).Ok?
    ensures var f, l := Coerce(parse, x.cols["first_review"][i]), Coerce(parse, x.cols["last_review"][i]);
      ReviewDates(parse, x).value.cols["missing_review_dates"][i] == Flag(true) <==> f.None? || l.None?
  {
    var y := ReviewDates(parse, x).value;
    var fs, ls := ParseDays(parse, x.cols["first_review"]), ParseDays(parse, x.cols["last_review"]);
    ReviewRow(fs, ls, i);
    assert y.cols["missing_review_dates"] == MissingFlags(fs, ls);
  }

  /** Row by row, `review_gap_days` is the review gap of the parsed dates: -1 where one of
      them is NaT and last minus first otherwise (`ReviewColumnsAgree`). */
  lemma ReviewGapRow(parse: string -> DateParse, x: Frame, i: nat)
    requires x.Valid() && i < x.height && ReviewDates(parse, x).Ok?
    ensures ReviewDates(parse, x).value.cols["review_gap_days"][i]
            == Num(ReviewGap(Coerce(parse, x.cols["first_review"][i]), Coerce(parse, x.cols["last_review"][i])) as real)
  {
    var y := ReviewDates(parse, x).value;
    var fs, ls := ParseDays(parse, x.cols["first_review"]), ParseDays(parse, x.cols["last_review"]);
    assert y.cols["review_gap_days"] == Gaps(fs, ls);
  }

  /** Row by row, the review dates hold the parsed Timestamp or NaT. */
  lemma ReviewDayRow(parse: string -> DateParse, x: Frame, i: nat)
    requires x.Valid() && i < x.height && ReviewDates(parse, x).Ok?
    ensures ReviewDates(parse, x).value.cols["first_review"][i] == DayCell(Coerce(parse, x.cols["first_review"][i]))
    ensures ReviewDates(parse, x).value.cols["last_review"][i] == DayCell(Coerce(parse, x.cols["last_review"][i]))
  {
    var y := ReviewDates(parse, x).value;
    var fs, ls := ParseDays(parse, x.cols["first_review"]), ParseDays(parse, x.cols["last_review"]);
    assert y.cols["first_review"] == DayCells(fs) && y.cols["last_review"] == DayCells(ls);
  }

  /** Because the review dates are imputed with "2000-01-01" before they are parsed, a row
      whose review dates were both missing is not flagged: it reads as a review gap of 0
      days from 2000-01-01 to itself. */
  lemma ImputedReviewsNotFlagged(parse: string -> DateParse, x: Frame, i: nat)
    requires x.Valid() && i < x.height && x.Has("first_review") && x.Has("last_review")
    requires x.cols["first_review"][i] == Text("2000-01-01") && x.cols["last_review"][i] == Text("2000-01-01")
    requires parse("2000-01-01") == Parsed(ImputedDay)
    ensures ReviewDates(parse, x).Ok?
    ensures ReviewDates(parse, x).value.cols["missing_review_dates"][i] == Flag(false)
    ensures ReviewDates(parse, x).value.cols["review_gap_days"][i] == Num(0.0)
    ensures ReviewDates(parse, x).value.cols["first_review"][i] == Day(ImputedDay)
  {
    ReviewFlagRow(parse, x, i);
    ReviewGapRow(parse, x, i);
    ReviewDayRow(parse, x, i);
  }

  // ---------------------------------------------------------------- host response rate

  predicate IsPercent(c: char) { c == '%' }

  /** One cell of lines 256-263: "None" and NaN read as 0, a string is read as a float once
      its trailing percent signs are stripped (`parseFloat`), a number stays as it is, and
      anything else, or a string that does not read, raises a ValueError. */
  function ResponseRate(parseFloat: string -> Option<real>, c: Cell): (r: Result<Cell>)
    ensures c.Missing? || c == Text("None") ==> r == Ok(Num(0.0))
    ensures c.Num? ==> r == Ok(c)
    ensures c.Text? && c.s != "None" ==>
      (r.Ok? <==> parseFloat(StripRight(c.s, IsPercent)).Some?)
      && (r.Ok? ==> r.value == Num(parseFloat(StripRight(c.s, IsPercent)).value))
    ensures !(c.Missing? || c.Num? || c.Text?) ==> r.Err?
    ensures r.Err? ==> r.error == ValueError
  {
    match c
    case Missing => Ok(Num(0.0))
    case Num(_) => Ok(c)
    case Text(s) =>
      if s == "None" then Ok(Num(0.0))
      else
        (match parseFloat(StripRight(s, IsPercent))
         case Some(v) => Ok(Num(v))
         case None => Err(ValueError))
    case _ => Err(ValueError)
  }

  /** A trailing percent sign does not change the rate read from a string. */
  lemma PercentSignIgnored(parseFloat: string -> Option<real>, s: string)
    requires s != "None"
    ensures ResponseRate(parseFloat, Text(s + "%")) == ResponseRate(parseFloat, Text(s))
  {
    StripRightAppend(s, '%', IsPercent);
  }

  /** Lines 256-263 on the whole column. */
  function HostResponseRate(parseFloat: string -> Option<real>, x: Frame): (r: Result<Frame>)
    requires x.Valid()
    ensures !x.Has("host_response_rate") ==> r == Err(KeyError("host_response_rate"))
    ensures x.Has("host_response_rate") ==>
      r == SetRows(x, "host_response_rate", seq(x.height, i requires 0 <= i < x.height =>
                                                  ResponseRate(parseFloat, x.cols["host_response_rate"][i])))
    ensures r.Err? && x.Has("host_response_rate") ==> r.error == ValueError
  {
    var col :- x.Column("host_response_rate");
    SetRows(x, "host_response_rate", seq(x.height, i requires 0 <= i < x.height => ResponseRate(parseFloat, col[i])))
  }

  // ---------------------------------------------------------------- cleaning fee

  /** `astype(int)` of a float: truncation toward zero. */
  function Trunc(v: real): (r: int)
    ensures 0.0 <= v ==> 0 <= r && r as real <= v < r as real + 1.0
    ensures v < 0.0 ==> r <= 0 && r as real - 1.0 < v <= r as real
  {
    if v >= 0.0 then v.Floor else -((-v).Floor)
  }

  /** One cell of lines 265-266: NaN becomes 0, a number is truncated, a bool is 0 or 1, a
      string is read as an integer (`parseInt`, a ValueError when it does not read) and
      anything else raises a TypeError. */
  function CleaningFeeCell(parseInt: string -> Option<int>, c: Cell): (r: Result<Cell>)
    ensures c.Missing? ==> r == Ok(Num(0.0))
    ensures c.Num? ==> r == Ok(Num(Trunc(c.x) as real))
    ensures c.Flag? ==> r == Ok(Num(if c.b then 1.0 else 0.0))
    ensures c.Text? ==> (r.Ok? <==> parseInt(c.s).Some?) && (r.Err? ==> r.error == ValueError)
    ensures !(c.Missing? || c.Num? || c.Flag? || c.Text?) ==> r == Err(TypeError)
    ensures r.Ok? ==> r.value.Num? && r.value.x == r.value.x.Floor as real
  {
    match c
    case Missing => Ok(Num(0.0))
    case Num(v) => Ok(Num(Trunc(v) as real))
    case Flag(b) => Ok(Num(if b then 1.0 else 0.0))
    case Text(s) => if parseInt(s).Some? then Ok(Num(parseInt(s).value as real)) else Err(ValueError)
    case _ => Err(TypeError)
  }

  /** Lines 265-268: with a fee column, every row's fee is cleaned, and the first row that
      does not convert raises; without one, every fee is 0. Every fee is a whole number. */
  function CleaningFee(parseInt: string -> Option<int>, x: Frame): (r: Result<Frame>)
    requires x.Valid()
    ensures r.Ok? <==> !x.Has("cleaning_fee")
                       || forall i :: 0 <= i < x.height ==> CleaningFeeCell(parseInt, x.cols["cleaning_fee"][i]).Ok?
    ensures r.Err? ==> x.Has("cleaning_fee")
    ensures r.Err? ==>
      exists k :: 0 <= k < x.height && CleaningFeeCell(parseInt, x.cols["cleaning_fee"][k]) == Err(r.error)
                  && forall i :: 0 <= i < k ==> CleaningFeeCell(parseInt, x.cols["cleaning_fee"][i]).Ok?
    ensures r.Ok? ==> r.value.Valid() && r.value.height == x.height && Untouched(x, r.value, {"cleaning_fee"})
    ensures r.Ok? ==> "cleaning_fee" in r.value.cols && forall i :: 0 <= i < x.height ==>
      r.value.cols["cleaning_fee"][i]
        == (if x.Has("cleaning_fee") then CleaningFeeCell(parseInt, x.cols["cleaning_fee"][i]).value else Num(0.0))
      && r.value.cols["cleaning_fee"][i].Num? && r.value.cols["cleaning_fee"][i].x == r.value.cols["cleaning_fee"][i].x.Floor as real
  {
    if x.Has("cleaning_fee") then
      var rows := seq(x.height, i requires 0 <= i < x.height => CleaningFeeCell(parseInt, x.cols["cleaning_fee"][i]));
      assert forall i :: 0 <= i < x.height ==> rows[i] == CleaningFeeCell(parseInt, x.cols["cleaning_fee"][i]);
      SetRows(x, "cleaning_fee", rows)
    else Ok(x.Set("cleaning_fee", Constant(x.height, Num(0.0))))
  }

  // ---------------------------------------------------------------- coordinate bins

  /** One cell of `pd.cut`: NaN stays NaN, a value gets its interval. */
  function BinCell(c: Cell): (r: Cell)
    ensures r.Missing? <==> c.Missing?
    ensures !r.Missing? ==> r == Bin
  {
    if c.Missing? then Missing else Bin
  }

  /** `pd.cut` with a number of bins refuses a column without a present value: without
      rows it cannot cut an empty array, and with rows all NaN its bin edges are all NaN and
      so not unique. */
  predicate Uncuttable(col: seq<Cell>) {
    forall i :: 0 <= i < |col| ==> col[i].Missing?
  }

  /** The columns whose bin edges `pd.cut` can compute from their minimum and maximum:
      every present cell a number or a bool, or every present cell a Timestamp. A string,
      a list or an interval, or numbers next to Timestamps, make that arithmetic or
      comparison raise a TypeError. */
  predicate CutKinds(col: seq<Cell>) {
    (forall i :: 0 <= i < |col| ==> col[i].Missing? || col[i].Num? || col[i].Flag?)
    || (forall i :: 0 <= i < |col| ==> col[i].Missing? || col[i].Day?)
  }

  /** A coordinate column `pd.cut` accepts. */
  predicate Cuttable(col: seq<Cell>) {
    !Uncuttable(col) && CutKinds(col)
  }

  /** Lines 279-282: a bin column for each coordinate the frame has. The first coordinate
      column `pd.cut` refuses, latitude before longitude, raises a ValueError when it holds
      no present value and a TypeError when its values are of the wrong kind. */
  function Bins(x: Frame): (r: Result<Frame>)
    requires x.Valid()
    ensures r.Ok? <==> (x.Has("latitude") ==> Cuttable(x.cols["latitude"]))
                       && (x.Has("longitude") ==> Cuttable(x.cols["longitude"]))
    ensures x.Has("latitude") && !Cuttable(x.cols["latitude"]) ==>
      r == Err(if Uncuttable(x.cols["latitude"]) then ValueError else TypeError)
    ensures (x.Has("latitude") ==> Cuttable(x.cols["latitude"]))
            && x.Has("longitude") && !Cuttable(x.cols["longitude"]) ==>
      r == Err(if Uncuttable(x.cols["longitude"]) then ValueError else TypeError)
    ensures r.Ok? ==> r.value == Binned(x)
  {
    if x.Has("latitude") && !Cuttable(x.cols["latitude"]) then
      Err(if Uncuttable(x.cols["latitude"]) then ValueError else TypeError)
    else if x.Has("longitude") && !Cuttable(x.cols["longitude"]) then
      Err(if Uncuttable(x.cols["longitude"]) then ValueError else TypeError)
    else Ok(Binned(x))
  }

  /** `r`'s column `dst` holds the bins of `x`'s column `src` when `x` has it, and is
      `x`'s own otherwise. */
  ghost predicate BinnedFrom(x: Frame, r: Frame, src: string, dst: string) {
    (dst in r.cols <==> dst in x.cols || src in x.cols)
    && (src in x.cols ==> r.cols[dst] == MapCells(x.cols[src], BinCell))
    && (src !in x.cols && dst in x.cols ==> r.cols[dst] == x.cols[dst])
  }

  /** The bins of lines 279-282 once `pd.cut` accepts the coordinates: each coordinate's
      bins, missing exactly where the coordinate is, and nothing else changed. */
  function Binned(x: Frame): (r: Frame)
    requires x.Valid()
    ensures r.Valid() && r.height == x.height && Untouched(x, r, {"lat_bin", "long_bin"})
    ensures BinnedFrom(x, r, "latitude", "lat_bin") && BinnedFrom(x, r, "longitude", "long_bin")
  {
    var y := BinInto(x, "latitude", "lat_bin");
    var r := BinInto(y, "longitude", "long_bin");
    assert "longitude" !in {"lat_bin"} && "long_bin" !in {"lat_bin"} && "lat_bin" !in {"long_bin"};
    r
  }

  /** `pd.cut` of the column `src` assigned to `dst`, when the frame has `src`. */
  function BinInto(x: Frame, src: string, dst: string): (r: Frame)
    requires x.Valid() && src != dst
    ensures r.Valid() && r.height == x.height && Untouched(x, r, {dst}) && BinnedFrom(x, r, src, dst)
  {
    if x.Has(src) then x.Set(dst, MapCells(x.cols[src], BinCell)) else x
  }

  // ---------------------------------------------------------------- amenities

  /** `str(x)` of a cell after `fillna('')`: the string itself, "" for NaN, and for any
      other value Python's `str`, the parameter `show` ("5.0" for a float, "['a', 'b']" for
      a list). */
  function AsText(show: Cell -> string, c: Cell): (r: string)
    ensures c.Text? ==> r == c.s
    ensures c.Missing? ==> r == ""
    ensures !c.Text? && !c.Missing? ==> r == show(c)
  {
    if c.Text? then c.s else if c.Missing? then "" else show(c)
  }

  /** Lines 284-286: with an amenities column, `split_amenities` holds each row's labels
      and `n_amenities` their number, which is never 0; without one, nothing changes. */
  function SplitAmenities(show: Cell -> string, x: Frame): (r: Frame)
    requires x.Valid()
    ensures r.Valid() && r.height == x.height && Untouched(x, r, {"split_amenities", "n_amenities"})
    ensures !x.Has("amenities") ==> r == x
    ensures x.Has("amenities") ==> "split_amenities" in r.cols && "n_amenities" in r.cols
    ensures x.Has("amenities") ==> forall i :: 0 <= i < x.height ==>
      r.cols["split_amenities"][i] == Items(SplitForTransform(AsText(show, x.cols["amenities"][i])))
      && r.cols["n_amenities"][i] == Num(|r.cols["split_amenities"][i].xs| as real)
      && r.cols["n_amenities"][i].x >= 1.0
  {
    if x.Has("amenities") then
      var a := x.cols["amenities"];
      var split := MapCells(a, (c: Cell) => Items(SplitForTransform(AsText(show, c))));
      var counts := MapCells(a, (c: Cell) => Num(CountForTransform(AsText(show, c)) as real));
      Set2(x, "split_amenities", split, "n_amenities", counts)
    else x
  }

  // ---------------------------------------------------------------- description scores

  /** `sentiment_score` (lines 107-113): every row's polarity score; a frame without
      descriptions raises. */
  function SentimentScore(polarity: string -> real, x: Frame): (r: Result<Frame>)
    requires x.Valid()
    ensures r.Ok? <==> x.Has("description")
    ensures r.Err? ==> r.error == KeyError("description")
    ensures r.Ok? ==> r.value.Valid() && r.value.height == x.height && Untouched(x, r.value, {"sentiment"})
    ensures r.Ok? ==> "sentiment" in r.value.cols && forall i :: 0 <= i < x.height ==>
      r.value.cols["sentiment"][i] == Num(Sentiment(polarity, x.cols["description"][i]))
  {
    var d :- x.Column("description");
    Ok(x.Set("sentiment", MapCells(d, (c: Cell) => Num(Sentiment(polarity, c)))))
  }

  /** `objectivity_score` (lines 115-120): every row's objectivity score; a frame without
      descriptions raises. */
  function ObjectivityScore(subjectivity: string -> real, x: Frame): (r: Result<Frame>)
    requires x.Valid()
    ensures r.Ok? <==> x.Has("description")
    ensures r.Err? ==> r.error == KeyError("description")
    ensures r.Ok? ==> r.value.Valid() && r.value.height == x.height && Untouched(x, r.value, {"objectivity"})
    ensures r.Ok? ==> "objectivity" in r.value.cols && forall i :: 0 <= i < x.height ==>
      r.value.cols["objectivity"][i] == Num(Objectivity(subjectivity, x.cols["description"][i]))
  {
    var d :- x.Column("description");
    Ok(x.Set("objectivity", MapCells(d, (c: Cell) => Num(Objectivity(subjectivity, c)))))
  }

  /** Lines 288-291: the sentiment and objectivity columns, then `description_score` of
      every row from the two; a frame without descriptions raises. */
  function DescriptionScores(polarity: string -> real, subjectivity: string -> real, x: Frame): (r: Result<Frame>)
    requires x.Valid()
    ensures r.Ok? <==> x.Has("description")
    ensures r.Err? ==> r.error == KeyError("description")
    ensures r.Ok? ==> r.value.Valid() && r.value.height == x.height
    ensures r.Ok? ==> Untouched(x, r.value, {"sentiment", "objectivity", "description_score"})
    ensures r.Ok? ==> "sentiment" in r.value.cols && "objectivity" in r.value.cols && "description_score" in r.value.cols
    ensures r.Ok? ==> forall i :: 0 <= i < x.height ==>
      r.value.cols["sentiment"][i] == Num(Sentiment(polarity, x.cols["description"][i]))
      && r.value.cols["objectivity"][i] == Num(Objectivity(subjectivity, x.cols["description"][i]))
      && r.value.cols["description_score"][i]
         == Num(DescriptionScore(Sentiment(polarity, x.cols["description"][i]), Objectivity(subjectivity, x.cols["description"][i])))
  {
    var d :- x.Column("description");
    var sentiment := MapCells(d, (c: Cell) => Num(Sentiment(polarity, c)));
    var objectivity := MapCells(d, (c: Cell) => Num(Objectivity(subjectivity, c)));
    var score := seq(x.height, i requires 0 <= i < x.height =>
                       Num(DescriptionScore(sentiment[i].x, objectivity[i].x)));
    Ok(Set3(x, "sentiment", sentiment, "objectivity", objectivity, "description_score", score))
  }

  /** `n_amenities` as `fit` computes it (line 218): the number of comma-separated pieces of
      a string, 0 for anything else; a frame without amenities raises. */
  function FitAmenityCounts(x: Frame): (r: Result<Frame>)
    requires x.Valid()
    ensures r.Ok? <==> x.Has("amenities")
    ensures r.Err? ==> r.error == KeyError("amenities")
    ensures r.Ok? ==> r.value.Valid() && r.value.height == x.height && Untouched(x, r.value, {"n_amenities"})
    ensures r.Ok? ==> "n_amenities" in r.value.cols && forall i :: 0 <= i < x.height ==>
      var a := x.cols["amenities"][i];
      r.value.cols["n_amenities"][i] == Num(if a.Text? then CountForFit(a.s) as real else 0.0)
  {
    var a :- x.Column("amenities");
    Ok(x.Set("n_amenities", MapCells(a, (c: Cell) => Num(if c.Text? then CountForFit(c.s) as real else 0.0))))
  }

  // ---------------------------------------------------------------- policy and city

  /** Lines 293-296: the luxury flag of every row's policy, or 0 without a policy column. */
  function LuxuryPolicy(x: Frame): (r: Frame)
    requires x.Valid()
    ensures r.Valid() && r.height == x.height && Untouched(x, r, {"luxury_policy_flag"})
    ensures "luxury_policy_flag" in r.cols
    ensures forall i :: 0 <= i < x.height ==>
      r.cols["luxury_policy_flag"][i] == if x.Has("cancellation_policy") then LuxuryFlag(x.cols["cancellation_policy"][i]) else Num(0.0)
  {
    if x.Has("cancellation_policy") then x.Set("luxury_policy_flag", MapCells(x.cols["cancellation_policy"], LuxuryFlag))
    else x.Set("luxury_policy_flag", Constant(x.height, Num(0.0)))
  }

  /** Lines 298-299: each row's city through the two city tables, NaN for any other city;
      a frame without cities raises. */
  function CityScores(x: Frame): (r: Result<Frame>)
    requires x.Valid()
    ensures r.Ok? <==> x.Has("city")
    ensures r.Err? ==> r.error == KeyError("city")
    ensures r.Ok? ==> r.value.Valid() && r.value.height == x.height
    ensures r.Ok? ==> Untouched(x, r.value, {"city_value_score", "city_expense_score"})
    ensures r.Ok? ==> "city_value_score" in r.value.cols && "city_expense_score" in r.value.cols
    ensures r.Ok? ==> forall i :: 0 <= i < x.height ==>
      r.value.cols["city_value_score"][i] == MapEncode(CitySentiment, x.cols["city"][i])
      && r.value.cols["city_expense_score"][i] == MapEncode(CityExpenseWorth, x.cols["city"][i])
  {
    var city :- x.Column("city");
    var value := MapCells(city, (c: Cell) => MapEncode(CitySentiment, c));
    var expense := MapCells(city, (c: Cell) => MapEncode(CityExpenseWorth, c));
    Ok(Set2(x, "city_value_score", value, "city_expense_score", expense))
  }

  /** A city score is known exactly for the six cities of the tables. */
  lemma CityScoreKnown(c: Cell)
    ensures MapEncode(CitySentiment, c).Num? <==> c.Text? && c.s in Cities
    ensures MapEncode(CityExpenseWorth, c).Num? <==> c.Text? && c.s in Cities
  {
    SentimentCities();
    ExpenseCities();
  }

  // ---------------------------------------------------------------- row-wise dates

  /** One row of lines 301-302: `day_since(first_review, last_review)`. */
  function DaysRow(parse: string -> DateParse, first: Option<Cell>, last: Option<Cell>): (r: Result<Cell>)
    ensures first.None? ==> r == Err(KeyError("first_review"))
    ensures first.Some? && last.None? ==> r == Err(KeyError("last_review"))
    ensures first.Some? && last.Some? ==> r == Ok(Num(DaySince(parse, first.value, last.value) as real))
  {
    if first.None? then Err(KeyError("first_review"))
    else if last.None? then Err(KeyError("last_review"))
    else Ok(Num(DaySince(parse, first.value, last.value) as real))
  }

  /** Lines 301-302 on every row: a frame with rows needs both review columns, and then
      every row's `days_between_reviews` is `day_since` of its two review dates. */
  function DaysBetweenReviews(parse: string -> DateParse, x: Frame): (r: Result<Frame>)
    requires x.Valid()
    ensures r.Ok? <==> x.height == 0 || (x.Has("first_review") && x.Has("last_review"))
    ensures r.Err? ==> r.error == KeyError(if x.Has("first_review") then "last_review" else "first_review")
    ensures r.Ok? ==> r.value.Valid() && r.value.height == x.height && Untouched(x, r.value, {"days_between_reviews"})
    ensures r.Ok? ==> "days_between_reviews" in r.value.cols && forall i :: 0 <= i < x.height ==>
      "first_review" in x.cols && "last_review" in x.cols
      && r.value.cols["days_between_reviews"][i]
         == Num(DaySince(parse, x.cols["first_review"][i], x.cols["last_review"][i]) as real)
  {
    var rows := seq(x.height, i requires 0 <= i < x.height =>
                      DaysRow(parse, CellAt(x, "first_review", i), CellAt(x, "last_review", i)));
    assert x.height > 0 && !(x.Has("first_review") && x.Has("last_review")) ==> rows[0].Err?;
    SetRows(x, "days_between_reviews", rows)
  }

  /** After the review dates are parsed, `days_between_reviews` and `review_gap_days` agree
      on every row. */
  lemma DaysBetweenIsGap(parse: string -> DateParse, x: Frame, i: nat)
    requires x.Valid() && i < x.height && ReviewDates(parse, x).Ok?
    ensures var y := ReviewDates(parse, x).value;
      DaysRow(parse, CellAt(y, "first_review", i), CellAt(y, "last_review", i)) == Ok(y.cols["review_gap_days"][i])
  {
    var y := ReviewDates(parse, x).value;
    var f, l := Coerce(parse, x.cols["first_review"][i]), Coerce(parse, x.cols["last_review"][i]);
    ReviewDayRow(parse, x, i);
    ReviewGapRow(parse, x, i);
    assert Coerce(parse, y.cols["first_review"][i]) == f;
    assert Coerce(parse, y.cols["last_review"][i]) == l;
    ReviewColumnsAgree(parse, y.cols["first_review"][i], y.cols["last_review"][i]);
  }

  /** One row of lines 304-312: the last review is read first, then `host_since`. */
  function TenureRow(parse: string -> DateParse, hostSince: Option<Cell>, last: Option<Cell>): (r: Result<Cell>)
    ensures last.None? ==> r == Err(KeyError("last_review"))
    ensures last.Some? && hostSince.None? ==> r == Err(KeyError("host_since"))
    ensures last.Some? && hostSince.Some? ==>
      match HostTenure(parse, hostSince.value, Coerce(parse, last.value))
      case Ok(t) => r == Ok(Num(t as real))
      case Err(e) => r == Err(e)
  {
    if last.None? then Err(KeyError("last_review"))
    else if hostSince.None? then Err(KeyError("host_since"))
    else
      var t :- HostTenure(parse, hostSince.value, Coerce(parse, last.value));
      Ok(Num(t as real))
  }

  /** Lines 304-312 on every row: a frame with rows needs `last_review` and then
      `host_since`; the first row whose `host_tenure` raises (a None or unreadable
      `host_since` next to a review date) raises that row's error; otherwise every row's
      `host_tenure` is its `HostTenure`. */
  function HostTenures(parse: string -> DateParse, x: Frame): (r: Result<Frame>)
    requires x.Valid()
    ensures r.Ok? <==>
      (x.height == 0
       || (x.Has("host_since") && x.Has("last_review")
           && forall i :: 0 <= i < x.height ==>
                HostTenure(parse, x.cols["host_since"][i], Coerce(parse, x.cols["last_review"][i])).Ok?))
    ensures r.Err? && !x.Has("last_review") ==> r.error == KeyError("last_review")
    ensures r.Err? && x.Has("last_review") && !x.Has("host_since") ==> r.error == KeyError("host_since")
    ensures r.Err? && x.Has("last_review") && x.Has("host_since") ==>
      exists k :: 0 <= k < x.height
        && HostTenure(parse, x.cols["host_since"][k], Coerce(parse, x.cols["last_review"][k])) == Err(r.error)
        && forall i :: 0 <= i < k ==> HostTenure(parse, x.cols["host_since"][i], Coerce(parse, x.cols["last_review"][i])).Ok?
    ensures r.Ok? ==> r.value.Valid() && r.value.height == x.height && Untouched(x, r.value, {"host_tenure"})
    ensures r.Ok? ==> "host_tenure" in r.value.cols && forall i :: 0 <= i < x.height ==>
      "host_since" in x.cols && "last_review" in x.cols
      && HostTenure(parse, x.cols["host_since"][i], Coerce(parse, x.cols["last_review"][i])).Ok?
      && r.value.cols["host_tenure"][i]
         == Num(HostTenure(parse, x.cols["host_since"][i], Coerce(parse, x.cols["last_review"][i])).value as real)
  {
    var rows := seq(x.height, i requires 0 <= i < x.height =>
                      TenureRow(parse, CellAt(x, "host_since", i), CellAt(x, "last_review", i)));
    assert x.height > 0 && !(x.Has("host_since") && x.Has("last_review")) ==> rows[0].Err?;
    assert x.Has("host_since") && x.Has("last_review") ==> forall i :: 0 <= i < x.height ==>
      (rows[i].Ok? <==> HostTenure(parse, x.cols["host_since"][i], Coerce(parse, x.cols["last_review"][i])).Ok?)
      && (rows[i].Err? ==> rows[i].error == HostTenure(parse, x.cols["host_since"][i], Coerce(parse, x.cols["last_review"][i])).error);
    SetRows(x, "host_tenure", rows)
  }

  /** A None `host_since` in the first row, next to a last review that parses, makes the
      whole column raise the TypeError of the comparison at line 309. */
  lemma NoneHostSinceRaises(parse: string -> DateParse, x: Frame)
    requires x.Valid() && x.Has("host_since") && x.Has("last_review") && x.height > 0
    requires x.cols["host_since"][0].Missing? && Coerce(parse, x.cols["last_review"][0]).Some?
    ensures HostTenures(parse, x) == Err(TypeError)
  {
  }

  // ---------------------------------------------------------------- distance

  /** One row of `compute_distance` (lines 197-204): the city is read first. */
  function DistanceRow(haversine: (Cell, Cell, real, real) -> Cell, city: Option<Cell>,
                       lat: Option<Cell>, lon: Option<Cell>): (r: Result<Cell>)
    ensures city.None? ==> r == Err(KeyError("city"))
    ensures city.Some? ==> r == Distance(haversine, city.value, lat, lon)
  {
    if city.None? then Err(KeyError("city")) else Distance(haversine, city.value, lat, lon)
  }

  /** `add_distance_to_city_center` (lines 196-206) on every row: a frame with rows needs a
      city column, and the coordinates as soon as one row is in a city with a known centre;
      then every such row gets its haversine distance to the centre and every other row NaN. */
  function DistanceToCenter(haversine: (Cell, Cell, real, real) -> Cell, x: Frame): (r: Result<Frame>)
    requires x.Valid()
    ensures r.Ok? <==>
      (x.height == 0 || (x.Has("city") && (AnyKnownCity(x) ==> x.Has("latitude") && x.Has("longitude"))))
    ensures r.Err? ==>
      r.error == KeyError(if !x.Has("city") then "city" else if !x.Has("latitude") then "latitude" else "longitude")
    ensures r.Ok? ==> r.value.Valid() && r.value.height == x.height && Untouched(x, r.value, {"distance_to_city_center"})
    ensures r.Ok? ==> "distance_to_city_center" in r.value.cols && forall i :: 0 <= i < x.height ==>
      "city" in x.cols
      && r.value.cols["distance_to_city_center"][i]
         == if KnownCity(x.cols["city"][i]) then CenterDistance(haversine, x, i) else Missing
  {
    var rows := seq(x.height, i requires 0 <= i < x.height =>
                      DistanceRow(haversine, CellAt(x, "city", i), CellAt(x, "latitude", i), CellAt(x, "longitude", i)));
    assert x.height > 0 && !x.Has("city") ==> rows[0].Err?;
    assert x.Has("city") && AnyKnownCity(x) && !(x.Has("latitude") && x.Has("longitude")) ==>
      exists k :: 0 <= k < x.height && KnownCity(x.cols["city"][k]) && rows[k].Err?;
    SetRows(x, "distance_to_city_center", rows)
  }

  /** Some row is in a city with a known centre. */
  predicate AnyKnownCity(x: Frame)
    requires x.Valid() && x.Has("city")
  {
    exists i :: 0 <= i < x.height && KnownCity(x.cols["city"][i])
  }

  /** A city whose centre `compute_distance` knows. */
  predicate KnownCity(c: Cell) {
    c.Text? && c.s in CityCenters
  }

  /** Row `i`'s haversine distance to its city's centre. */
  function CenterDistance(haversine: (Cell, Cell, real, real) -> Cell, x: Frame, i: nat): Cell
    requires x.Valid() && i < x.height && x.Has("city") && KnownCity(x.cols["city"][i])
    requires x.Has("latitude") && x.Has("longitude")
  {
    var center := CityCenters[x.cols["city"][i].s];
    haversine(x.cols["latitude"][i], x.cols["longitude"][i], center.0, center.1)
  }

  /** Without coordinates, the distance step still succeeds when no row is in a known
      city, and every distance is then NaN. */
  lemma DistanceWithoutCoordinates(haversine: (Cell, Cell, real, real) -> Cell, x: Frame)
    requires x.Valid() && x.Has("city") && !x.Has("latitude")
    requires forall i :: 0 <= i < x.height ==> !(x.cols["city"][i].Text? && x.cols["city"][i].s in CityCenters)
    ensures DistanceToCenter(haversine, x).Ok?
    ensures forall i :: 0 <= i < x.height ==> DistanceToCenter(haversine, x).value.cols["distance_to_city_center"][i] == Missing
  {
  }

  // ---------------------------------------------------------------- final columns

  /** The identifier and date columns dropped at lines 326-328. */
  const DropCols: set<string> :=
    {"id", "name", "thumbnail_url", "neighbourhood", "first_review", "host_since", "last_review",
     "zipcode", "missing_review_dates"}

  /** `self.cluster_features` (lines 28-38). */
  const ClusterFeatures: seq<string> :=
    ["room_type", "distance_to_city_center", "sentiment", "objectivity", "beds", "n_amenities",
     "amenity_score_normalized", "review_scores_rating", "city_value_score", "city_expense_score"]

  /** A frame with the nine computed or imputed cluster features has all of them but
      `room_type`, and all of them once it has `room_type` too. */
  lemma ClusterColumns(y: Frame)
    requires "distance_to_city_center" in y.cols && "sentiment" in y.cols && "objectivity" in y.cols
    requires "beds" in y.cols && "n_amenities" in y.cols && "amenity_score_normalized" in y.cols
    requires "review_scores_rating" in y.cols && "city_value_score" in y.cols && "city_expense_score" in y.cols
    ensures y.HasAll(ClusterFeatures[1..]) && ("room_type" in y.cols ==> y.HasAll(ClusterFeatures))
  {
    assert ClusterFeatures[1..] == ["distance_to_city_center", "sentiment", "objectivity", "beds", "n_amenities",
                                    "amenity_score_normalized", "review_scores_rating", "city_value_score",
                                    "city_expense_score"];
  }

  /** `list(set(ns))`: each label once. Python's set order is not modelled; the labels are
      kept at their first occurrence. */
  function Dedup(ns: seq<string>): (r: seq<string>)
    ensures Distinct(r)
    ensures forall n :: n in r <==> n in ns
    decreases |ns|
  {
    if ns == [] then []
    else
      var rest := Dedup(ns[..|ns| - 1]);
      var last := ns[|ns| - 1];
      assert forall n :: n in ns <==> n in ns[..|ns| - 1] || n == last;
      if last in rest then rest else rest + [last]
  }

  /** The labels of the numeric columns, in column order. */
  function NumericNames(x: Frame): (r: seq<string>)
    requires x.Valid()
    ensures Distinct(r)
    ensures forall n :: n in r <==> n in x.cols && x.NumericColumn(n)
  {
    Without(x.names, set n | n in x.cols && !x.NumericColumn(n))
  }

  /** `final_feature_names` as `fit` computes it (lines 230-233): no label twice, and
      exactly the cluster features the frame has together with its numeric columns. */
  function FinalNames(x: Frame): (r: seq<string>)
    requires x.Valid()
    ensures Distinct(r)
    ensures forall n :: n in r <==> n in x.cols && (n in ClusterFeatures || x.NumericColumn(n))
  {
    Dedup(Without(ClusterFeatures, set n | n in ClusterFeatures && n !in x.cols) + NumericNames(x))
  }

  /** The column `n` has after the zero-fill of lines 321-323. */
  function Filled(x: Frame, n: string): (r: seq<Cell>)
    requires x.Valid()
    ensures |r| == x.height
  {
    if n in x.cols then x.cols[n] else Constant(x.height, Num(0.0))
  }

  /** The frame after the loop at lines 321-323 has run over `names`. */
  function ZeroFillOver(x: Frame, names: seq<string>): (r: Frame)
    requires x.Valid()
    ensures r.Valid() && r.height == x.height
    decreases |names|
  {
    if names == [] then x
    else
      var y := ZeroFillOver(x, names[..|names| - 1]);
      var n := names[|names| - 1];
      if n in y.cols then y else y.Set(n, Constant(y.height, Num(0.0)))
  }

  /** After the zero-fill every listed column is present, holding its input values or
      zeros, and the other columns are the input's. */
  lemma {:induction false} ZeroFillEffect(x: Frame, names: seq<string>)
    requires x.Valid()
    ensures var y := ZeroFillOver(x, names);
      (forall n :: n in names ==> n in y.cols && y.cols[n] == Filled(x, n))
      && (forall n :: n !in names ==> (n in y.cols <==> n in x.cols))
      && (forall n :: n in x.cols ==> y.cols[n] == x.cols[n])
    decreases |names|
  {
    if names != [] {
      var init := names[..|names| - 1];
      assert forall n :: n in names <==> n in init || n == names[|names| - 1];
      ZeroFillEffect(x, init);
    }
  }

  /** The loop at lines 321-323. */
  method ZeroFill(x: Frame, names: seq<string>) returns (y: Frame)
    requires x.Valid()
    ensures y == ZeroFillOver(x, names)
  {
    y := x;
    var i := 0;
    while i < |names|
      invariant 0 <= i <= |names|
      invariant y == ZeroFillOver(x, names[..i])
    {
      assert names[..i + 1][..i] == names[..i];
      if names[i] !in y.cols {
        y := y.Set(names[i], Constant(y.height, Num(0.0)));
      }
      i := i + 1;
    }
    assert names[..i] == names;
  }

  /** A listed column that survives the final type filter. */
  ghost predicate Kept(x: Frame, n: string)
    requires x.Valid()
  {
    n !in DropCols && forall i :: 0 <= i < x.height ==> IsNumeric(Filled(x, n)[i])
  }

  /** Lines 321-331: zero-fill, select exactly the frozen names, drop the identifier and
      date columns and keep the numeric ones. The result has exactly the frozen names that
      are not dropped and whose filled column is numeric, each holding its input values or
      zeros; no dropped column survives. */
  function Assemble(x: Frame, final: seq<string>): (r: Frame)
    requires x.Valid() && Distinct(final)
    ensures r.Valid() && r.height == x.height
    ensures forall n :: n in r.cols <==> n in final && Kept(x, n)
    ensures forall n :: n in r.cols ==> r.cols[n] == Filled(x, n)
    ensures forall n :: n in DropCols ==> n !in r.cols
    ensures forall n :: n in r.names ==> n in final
  {
    var y := ZeroFillOver(x, final);
    ZeroFillEffect(x, final);
    var s := y.Select(final).value;
    s.Drop(DropCols).KeepNumeric()
  }
}
