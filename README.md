# Pricifier core, modelled in Dafny

Pricifier predicts the nightly price of a short-term rental. Its offline pipeline has three
parts, and this project models the discrete logic of each:

- **`DataPreprocessor`** (`preprocessor.py`) turns raw listing rows into a numeric feature
  table. `fit` learns the imputer fill values, freezes the top amenity terms and the final
  feature names; `transform` re-derives every feature from the frozen state. The model
  includes:
  - the fixed encoder and city tables;
  - constant and learned imputation;
  - review-date gaps with their −1 sentinel;
  - amenity splitting, canonicalisation and counting;
  - the `fitted` state machine of `_compute_amenity_score`;
  - the city guard of the distance feature;
  - final column assembly.
- **`ClusterFit` and `ModelPerCluster`** (`model.py`) do the clustering and the per-cluster
  work. The model includes:
  - the fit guard of the clusterer;
  - the per-cluster arg-min over the model families, with the stacking override;
  - the four per-cluster dictionaries;
  - the masked scatter of predictions in `predicts`.
- **`format_amenities_from_string`** (`utils.py`) is the serialiser whose output the
  preprocessor parses back.

A pandas DataFrame is a `Frames.Frame`:
- distinct column labels, one column of `Cell`s per label, all of one height;
- rows are aligned by position.

A `Cell` is one of:
- NaN/None/NaT;
- a number;
- a string;
- a bool;
- a day number;
- a list of strings;
- a `pd.cut` interval.

Python exceptions are `Wrappers.PyError` values carried by `Result`/`Outcome`.

What foreign libraries compute is passed in as function-valued parameters:
- VADER polarity and TextBlob subjectivity;
- date and number parsing;
- medians;
- TF-IDF weights and the ranking by mean weight;
- the scalers;
- haversine;
- KMeans assignment;
- an Optuna study's result, and a stacked model's RMSE;
- a regressor's predictions.

Each of these appears as a parameter (`Lib`, `ScoreLib`, `tune`, `stack`, `assign`,
`predict`).

Some errors these libraries raise are written out as rules, because the code's outcome
depends on them:
- a SimpleImputer fitted on a column without rows or without a present value;
- a SimpleImputer or OrdinalEncoder `transform` of a column without rows;
- the TF-IDF vectorizer's `fit_transform` or `transform` of no documents;
- `pd.cut` of a coordinate column without a present value (ValueError), or with a value
  it cannot compute bin edges from (TypeError);
- the comparison at line 309 of a last review with a None `host_since` (TypeError);
- StandardScaler on a selection without rows or columns;
- KMeans with fewer rows than clusters;
- the train/validation split of a cluster below two rows;
- stacking without bases, or below five rows.

Some further errors are left to parameters:
- `median` and `scaleRefuse`/`kmeansRefuse` return an optional error;
- `tune` and `stack` return a `Result`.

The library errors the model does not capture at all are listed under "## Left out",
each on the line of the member concerned.

Files, one Dafny module each:
- `wrappers.dfy`: `Option`, `Result`, `Outcome` and the exception kinds.
- `text.dfy`: Python's `strip`, `rstrip`, `split`, `join` and `re.sub` of a character class.
- `frames.dfy`: the frame model.
- `amenities.dfy`, `utils.dfy`: amenity labels, and the formatter.
- `dates.dfy`, `features.dfy`: per-cell rules.
- `imputers.dfy`, `stages.dfy`, `amenity_scores.dfy`: the steps of `fit` and `transform`.
- `preprocessor.dfy`: the `DataPreprocessor` class.
- `model.dfy`: `ClusterFit`, `ModelPerCluster` and the selection logic.

The imperative parts keep their form:
- the object state is a `class` with `modifies` clauses;
- each loop is a `method` with invariants, proved against a recursive specification function;
- the prediction buffer is an `array`.

## Behaviour as written

The model follows the code. Some details where the code behaves differently from what a
reader might expect:

- The review dates are imputed with `"2000-01-01"` before they are parsed (lines 43-44
  and 241-245). A row whose review dates were both missing is therefore not flagged in
  `missing_review_dates`, and gets a gap of 0, not −1 (`Stages.ImputedReviewsNotFlagged`).
- `day_since` does not clamp. A negative gap is returned as it is, so −1 is also the gap
  of an end one day before its start (`Dates.DaySinceSentinelAmbiguous`).
- The two cancellation tables are never applied: the mapping loop only maps columns
  carrying a table's own name (`Imputers.CancellationMapsUnused`).
- An empty amenities string counts as one amenity at transform time (line 286,
  `Amenities.CountForTransformValue`).
- `fit` reads `X['amenities']` and raises a KeyError when the column is missing.
  `Prepared` and `FitAmenityCounts` model that error.
- `transform` before `fit` raises from the first unfitted imputer, which is a
  `NotFitted` error in the model.
- `transform` of a frame without rows raises a ValueError: at the first imputed column
  the frame has (line 245), or else at the first boolean encoder (line 273), even though
  that column was just filled with "f" (`Imputers.FittedImputeComplete`,
  `Imputers.FittedBoolsEncode`).
- An imputed column the frame lacks is created from `transform([[None]])` (line 243). A
  median imputer gives its median there. A constant imputer's missing marker is NaN, so it
  does not count None as missing: it returns None, and the new column is all missing
  (`Imputers.ImputedCells`).
- `transform` of a frame with rows but without `host_since` raises a TypeError at line
  309 on the first row whose last review parses. The created `host_since` is None (the
  previous item), `pd.to_datetime(None)` is None, and `>=` refuses to compare a Timestamp
  with None. Because `last_review` is imputed first, this is any row with a readable last
  review (`Dates.HostTenureCases`, `Stages.HostTenures`).
- `ModelPerCluster` ignores the caller's cluster count and always uses 3 (line 55).
  The `cluster_id in [0, 1, 2]` guard is therefore always true.
- The stacked model is fitted and scored on the whole cluster, with no hold-out split.
- No cluster is rejected as too small by the code itself. A small cluster still fails,
  from the libraries: below two rows the split of the first trial raises, and below five
  rows the stacked model's cross-validation raises (`Model.SmallClusterFails`).
- `transform` does not recompute the amenity score on a frame without `split_amenities`.
  It reads the matrix stored by the last `_compute_amenity_score` call, which may belong
  to a different batch (`AmenityScores.AmenityScore`). With `amenities` present,
  `split_amenities` is always created first, so the score is recomputed.

## Model

Several specification functions have no row of their own. Their contracts only carry
what their callers' proofs need, and the rows of the lemmas and methods named here state
what they mean:
- `Imputers.ImputeOver`, `BoolOver` and `EncodeOver`: `ImputeOverEffect`,
  `ImputeOverError`, `BoolOverEffect`, `BoolOverError` and `EncodeOverEffect`, and the loops
  `ImputeColumns`, `EncodeBools` and `EncodeAll`.
- `Stages.ZeroFillOver`: `ZeroFillEffect` and `ZeroFill`.
- `AmenityScores.StandardCells`, `JoinedCells` and `Documents`: `PreparedDocument` and
  `FormattedDocument`.
- `AmenityScores.TopFeatures`: `TopFeaturesShape`.
- `AmenityScores.Matrix`, `RowSums`, `Normalized`, `Concat` and `WithScores`:
  `ConcatEffect`, `WithScoresKeeps` and `WithScoresEffect`.
- `AmenityScores.Align` and `Standardized`: `AmenityScore` and `ScoresAfterFittedCall`.
- `Model.Search` and `Choose`: `SearchFails`, `SearchIsMinimum`, `SearchRecordsParams`,
  `SearchKeepsEarliest`, `ChooseFails`, `SmallClusterFails` and `ChooseStacking`.
- `Model.Selections` and `FirstErr`: `Reached`.
- `Preprocessor.FitFeatures`, `FitFeaturesAfter`, `FitScored` and `FitFrame`: `Fit`,
  `FitRest`, `FitFeaturesColumns` and `FitFrameHasClusterFeatures`.
- `Preprocessor.Cleaned`, `Derived` and `Prepped`: `Prepare`.
- `Preprocessor.TransformFrom` and `TransformSpec`: `TransformPrepared`, `Transform`,
  `TransformFromOutput` and `TransformOutput`.

| member | source | states |
|---|---|---|
| `Amenities.TargetsNotKeys` | pricifier_project/deployment/pricifier/preprocessor.py:135-142 | No canonical label ("Internet", "Dryer/Washer", "Heating", "Pet-Friendly") is itself a key of `amenities_map` |
| `Amenities.TargetsBare` | pricifier_project/deployment/pricifier/preprocessor.py:135-142 | Every canonical label has no surrounding whitespace or quotes and contains no comma |
| `Amenities.PetLabelsMerge` | pricifier_project/deployment/pricifier/preprocessor.py:132-142 | A label merges into "Pet-Friendly" exactly when it is one of the five pet labels or "Pet-Friendly" itself |
| `Amenities.LookupIdempotent` | pricifier_project/deployment/pricifier/preprocessor.py:135-145 | `amenities_map.get(t, t)` passes non-keys through, sends keys to canonical labels, and looking up twice is looking up once |
| `Amenities.CanonicalStable` | pricifier_project/deployment/pricifier/preprocessor.py:145 | When a label trims to a bare label, canonicalising it twice is canonicalising it once |
| `Amenities.CanonicalNotIdempotent` | pricifier_project/deployment/pricifier/preprocessor.py:145 | In general canonicalising twice differs from once: `"\" Dryer\""` gives `" Dryer"` and then `"Dryer/Washer"` |
| `Amenities.CanonicalNoComma` | pricifier_project/deployment/pricifier/preprocessor.py:145 | Canonicalising a comma-free label never introduces a comma |
| `Amenities.MapAmenitiesLabelwise` | pricifier_project/deployment/pricifier/preprocessor.py:144-145 | `map_amenities` keeps the length and works label by label: it distributes over concatenation |
| `Amenities.TokenizerRecoversCanonical` | pricifier_project/deployment/pricifier/preprocessor.py:12-13 | `comma_tokenizer` applied to the comma-joined `amenities_str` of comma-free labels gives back their canonical list |
| `Amenities.SplitsHaveNoComma` | pricifier_project/deployment/pricifier/preprocessor.py:154 | Every label produced by the fit-time split (line 154) or the transform-time split (line 285) is comma-free |
| `Amenities.CountForTransformValue` | pricifier_project/deployment/pricifier/preprocessor.py:286 | The transform-time `n_amenities` is the number of commas inside the braces plus one, so it is at least 1, and 1 for "" and for "{}" |
| `Utils.FormatAmenities` | pricifier_project/deployment/pricifier/utils.py:1-6 | A non-string input raises ValueError; every other input gives a text starting with `{` and ending with `}` |
| `Utils.TokensShape` | pricifier_project/deployment/pricifier/utils.py:5 | Every item is non-empty, whitespace-trimmed, comma-free, and has none of the characters the input avoids |
| `Utils.BlankFormatsEmpty` | pricifier_project/deployment/pricifier/utils.py:5-6 | A blank or comma-only input has no items and is formatted as `{}` |
| `Utils.FitSplitRecoversTokens` | pricifier_project/deployment/pricifier/utils.py:5-6 | The fit-time parse (delete braces and quotes, split on commas) of the formatted text recovers exactly the trimmed items, when there is at least one item and the input holds none of those characters |
| `Utils.TransformSplitRecoversTokens` | pricifier_project/deployment/pricifier/utils.py:5-6 | The transform-time parse (strip braces, split on commas, `map_amenities`) of the formatted text gives the canonical items, for an input with at least one item and no double quotes |
| `Utils.CountOfFormatted` | pricifier_project/deployment/pricifier/utils.py:6 | Both `n_amenities` rules (lines 218 and 286) count a formatted text as its number of items, or 1 when there are none |
| `Dates.CalendarAnchors` | pricifier_project/deployment/pricifier/preprocessor.py:304 | The day-number constants are 2000-01-01 (the imputed date) and 2017-10-04 (the reference date), counted from 1970-01-01 |
| `Dates.Coerce` | pricifier_project/deployment/pricifier/preprocessor.py:127-128 | Lenient parsing: a timestamp stays, a string gives a day exactly when it parses, and anything else is NaT |
| `Dates.Strict` | pricifier_project/deployment/pricifier/preprocessor.py:309 | As the right operand of the comparison at line 309, strict parsing fails exactly for an unreadable string or a cell that is neither a string nor a date: a TypeError for a None cell, a ValueError otherwise. Otherwise it agrees with lenient parsing |
| `Dates.DaySinceCases` | pricifier_project/deployment/pricifier/preprocessor.py:126-129 | `day_since` is end minus start when both parse and −1 otherwise, with no clamping; `day_since(d, d) == 0` |
| `Dates.DaySinceSentinelAmbiguous` | pricifier_project/deployment/pricifier/preprocessor.py:129 | Without clamping, −1 is both the missing-date sentinel and the gap from day 1 to day 0 |
| `Dates.ReviewColumnsAgree` | pricifier_project/deployment/pricifier/preprocessor.py:249-254 | A row is flagged exactly when a parsed review date is NaT; a flagged row has gap −1, any other row last − first, which is also what `day_since` gives |
| `Dates.HostTenureCases` | pricifier_project/deployment/pricifier/preprocessor.py:304-312 | `host_tenure` raises exactly when a present last review sits next to a `host_since` that is None (TypeError), an unreadable string, or neither a string nor a date (ValueError). Otherwise it is last review − host date (≥ 0) when the last review is on or after the host date, else `day_since(host_since, 2017-10-04)` |
| `Features.MapEncode` | pricifier_project/deployment/pricifier/preprocessor.py:275-277 | `Series.map(table)` of a cell gives a number exactly for a string key of the table, that key's value, and NaN otherwise |
| `Features.RoomTypeCodes` | pricifier_project/deployment/pricifier/preprocessor.py:58-62 | Room types are coded onto exactly {0, 1, 2}, injectively |
| `Features.BedTypeCodes` | pricifier_project/deployment/pricifier/preprocessor.py:63-69 | Bed types are coded onto exactly {1, 2, 3, 4, 5}, injectively |
| `Features.CancellationKeys` | pricifier_project/deployment/pricifier/preprocessor.py:70-83 | Both cancellation scales have exactly the five policies as keys |
| `Features.CancellationMonotone` | pricifier_project/deployment/pricifier/preprocessor.py:70-83 | From flexible to super_strict_60, `_s` never decreases and `_f` never increases; flexible is 0.0 on `_s` and 1.0 on `_f` |
| `Features.EncodeRange` | pricifier_project/deployment/pricifier/preprocessor.py:58-69 | A mapped room type is in {0, 1, 2} and a mapped bed type in [1, 5]; a non-string cell maps to NaN |
| `Features.BoolEncode` | pricifier_project/deployment/pricifier/preprocessor.py:225 | The fitted ["f", "t"] encoder gives 0 exactly for "f", 1 exactly for "t", and −1 for everything else |
| `Features.LuxuryFlag` | pricifier_project/deployment/pricifier/preprocessor.py:294 | The flag is 1 exactly for the two super-strict policies, and 0 otherwise |
| `Features.LuxuryFlagIsStrictEnd` | pricifier_project/deployment/pricifier/preprocessor.py:70-76 | Among the policies, the luxury flag marks exactly those whose `_s` score exceeds 0.8 |
| `Features.CityTablesAgree` | pricifier_project/deployment/pricifier/preprocessor.py:90-105 | The sentiment, expense and center tables cover the same six cities, and both scores lie strictly between 0 and 1 |
| `Features.Distance` | pricifier_project/deployment/pricifier/preprocessor.py:197-203 | NaN for a city without a center. For a known city it is the haversine distance to that center, and it raises a KeyError exactly when a coordinate column is absent |
| `Features.Sentiment` | pricifier_project/deployment/pricifier/preprocessor.py:108-111 | 0 for a non-string or blank description, otherwise the compound polarity |
| `Features.Objectivity` | pricifier_project/deployment/pricifier/preprocessor.py:116-118 | 0 for a non-string description, otherwise one minus the subjectivity |
| `Features.DescriptionScoreRange` | pricifier_project/deployment/pricifier/preprocessor.py:122-124 | For a polarity in [−1, 1] and an objectivity in [0, 1] the combined score lies in [0, 1] and grows with both |
| `Imputers.ImputerTable` | pricifier_project/deployment/pricifier/preprocessor.py:40-54 | Thirteen distinct imputed columns; the review and host dates are filled with "2000-01-01" and the two host flags with "f" |
| `Imputers.Learn` | pricifier_project/deployment/pricifier/preprocessor.py:211-212 | Fitting an imputer on a column and assigning its output: a column without rows raises ValueError. A median imputer learns the column's median, and raises ValueError when no cell is present or the median is undefined. A constant imputer learns its constant, except that a string constant on an all-numeric column raises ValueError |
| `Imputers.Impute` | pricifier_project/deployment/pricifier/preprocessor.py:212 | Missing cells get the fill value, present cells are unchanged, and the length is kept |
| `Imputers.ImputeIdempotent` | pricifier_project/deployment/pricifier/preprocessor.py:245 | Imputing twice with the same value is imputing once, and a non-missing fill value leaves no missing cell |
| `Imputers.Imputed` | pricifier_project/deployment/pricifier/preprocessor.py:242-245 | The column has the frame's height. An absent column is created with the fill value of a median imputer, and all missing for a constant imputer, which returns the None it is given |
| `Imputers.ImputeOverEffect` | pricifier_project/deployment/pricifier/preprocessor.py:241-245 | The loop succeeds exactly when no imputed column is refused, that is never fitted, or present in a frame without rows. Then each imputed column holds its imputed input column (or the new column), and every other column is unchanged |
| `Imputers.ImputeOverError` | pricifier_project/deployment/pricifier/preprocessor.py:241-245 | A failing loop raises the error of the first refused column: NotFitted for an imputer never fitted, else the ValueError of a `transform` without rows |
| `Imputers.ImputeOverFills` | pricifier_project/deployment/pricifier/preprocessor.py:241-245 | The loop reads only the fill values of the columns it imputes |
| `Imputers.ImputeErrorStops` | pricifier_project/deployment/pricifier/preprocessor.py:241-245 | Once an imputer raises, the later columns are not visited |
| `Imputers.ImputeColumns` | pricifier_project/deployment/pricifier/preprocessor.py:241-245 | The imperative loop computes exactly the specified imputation `ImputeOver` |
| `Imputers.LearnedFills` | pricifier_project/deployment/pricifier/preprocessor.py:210-211 | Fill values exist for exactly the listed columns whose imputer can be fitted on the frame, each the value learned from its own column |
| `Imputers.FitImputeStep` | pricifier_project/deployment/pricifier/preprocessor.py:210-212 | On a frame with rows, fitting and then imputing one more column extends the transform-time imputation by that column |
| `Imputers.FitImputers` | pricifier_project/deployment/pricifier/preprocessor.py:210-212 | Succeeds exactly when every imputer can be fitted on its column, and then the frame is the transform-time imputation with the learned values. Otherwise the first column that cannot be fitted raises: a KeyError when absent, a ValueError otherwise. The values learned before it are kept |
| `Imputers.LearnedNotMissing` | pricifier_project/deployment/pricifier/preprocessor.py:40-54 | An imputer that can be fitted never learns a missing fill value |
| `Imputers.FittedImputeComplete` | pricifier_project/deployment/pricifier/preprocessor.py:241-245 | After a fit in which every imputer was fitted, the transform-time imputation fails, with a ValueError, exactly on a frame without rows that has an imputed column. Otherwise no cell of an imputed column is missing, except in a constant imputer's column that the frame lacked, which is missing throughout |
| `Imputers.ImputedCells` | pricifier_project/deployment/pricifier/preprocessor.py:242-245 | A column imputed by an imputer fitted on the fit frame has no missing cell when the frame had it or the imputer is a median one, and only missing cells when the frame lacked it and the imputer is a constant one |
| `Imputers.BoolColumn` | pricifier_project/deployment/pricifier/preprocessor.py:270-273 | Every encoded boolean cell is −1, 0 or 1; an absent column becomes all 0 (filled with "f"); a present one is encoded cell by cell |
| `Imputers.BoolOverEffect` | pricifier_project/deployment/pricifier/preprocessor.py:270-273 | After a successful loop each boolean column is encoded (all zeros where it was absent), and every other column is unchanged |
| `Imputers.BoolOverError` | pricifier_project/deployment/pricifier/preprocessor.py:270-273 | The loop succeeds exactly when no boolean column is refused: no encoders, no encoder for the column, or a frame without rows. A failure raises the first refused column's error, an AttributeError, a KeyError or a ValueError in that order |
| `Imputers.BoolErrorStops` | pricifier_project/deployment/pricifier/preprocessor.py:270-273 | Once a boolean encoder lookup raises, the later columns are not visited |
| `Imputers.EncodeBools` | pricifier_project/deployment/pricifier/preprocessor.py:270-273 | The imperative loop computes exactly `BoolOver` over the three boolean columns |
| `Imputers.FitBools` | pricifier_project/deployment/pricifier/preprocessor.py:223-227 | Succeeds exactly when every boolean column is present, fitting one encoder each. Otherwise it raises a KeyError for the first absent column, keeping the encoders fitted before it |
| `Imputers.FittedBoolsEncode` | pricifier_project/deployment/pricifier/preprocessor.py:270-273 | With the encoders a successful fit leaves, the transform-time loop succeeds exactly on a frame with rows, and then encodes every boolean column; without rows it raises a ValueError |
| `Imputers.EncodeOverEffect` | pricifier_project/deployment/pricifier/preprocessor.py:275-277 | Each encoder maps its own column, when present, through its table (unknown values become NaN); no column is added, and the others are unchanged |
| `Imputers.EncodeAll` | pricifier_project/deployment/pricifier/preprocessor.py:275-277 | The imperative loop computes exactly `EncodeOver` over the four tables |
| `Imputers.CancellationMapsUnused` | pricifier_project/deployment/pricifier/preprocessor.py:275-277 | The `cancellation_policy` column comes out of the mapping loop unchanged |
| `Stages.ReviewDates` | pricifier_project/deployment/pricifier/preprocessor.py:247-254 | Raises KeyError for a missing review column. Otherwise both dates are parsed leniently, with the flag and the gap computed from them, and the other columns are unchanged |
| `Stages.ReviewRow` | pricifier_project/deployment/pricifier/preprocessor.py:249-254 | Per row: flagged exactly when a date is NaT, gap −1 then, last − first otherwise |
| `Stages.ReviewFlagRow` | pricifier_project/deployment/pricifier/preprocessor.py:249 | On the frame, `missing_review_dates` is set exactly when a parsed review date is NaT |
| `Stages.ReviewGapRow` | pricifier_project/deployment/pricifier/preprocessor.py:251-254 | On the frame, `review_gap_days` is the review gap of the parsed dates |
| `Stages.ReviewDayRow` | pricifier_project/deployment/pricifier/preprocessor.py:247-248 | On the frame, each review date holds its parsed timestamp or NaT |
| `Stages.ImputedReviewsNotFlagged` | pricifier_project/deployment/pricifier/preprocessor.py:247-254 | A row whose review dates were imputed to 2000-01-01 is not flagged and has gap 0 |
| `Stages.ResponseRate` | pricifier_project/deployment/pricifier/preprocessor.py:256-263 | "None" and NaN read as 0; a number stays; a string is read as a float after its trailing `%` are stripped; anything else, or an unreadable string, raises ValueError |
| `Stages.PercentSignIgnored` | pricifier_project/deployment/pricifier/preprocessor.py:261 | A trailing percent sign does not change the rate |
| `Stages.HostResponseRate` | pricifier_project/deployment/pricifier/preprocessor.py:256-263 | A missing column raises KeyError; otherwise every row is converted, and the first failing row raises ValueError |
| `Stages.Trunc` | pricifier_project/deployment/pricifier/preprocessor.py:266 | `astype(int)` truncates toward zero |
| `Stages.CleaningFeeCell` | pricifier_project/deployment/pricifier/preprocessor.py:266 | NaN becomes 0; a number is truncated; a bool is 0 or 1; a string must read as an integer (ValueError otherwise); anything else raises TypeError. Every result is whole |
| `Stages.CleaningFee` | pricifier_project/deployment/pricifier/preprocessor.py:265-268 | Succeeds exactly when there is no fee column or every fee cell converts; otherwise it raises the first failing row's error. The fee column holds each row's converted fee, or all zeros without a fee column. Every value is whole, and every other column is unchanged |
| `Stages.BinCell` | pricifier_project/deployment/pricifier/preprocessor.py:280 | A bin is NaN exactly when the coordinate is |
| `Stages.Bins` | pricifier_project/deployment/pricifier/preprocessor.py:279-282 | Succeeds exactly when each coordinate column the frame has holds a present value and only numbers and bools, or only Timestamps. Otherwise the first refused column (latitude, then longitude) raises: a ValueError without a present value (which includes a frame without rows), a TypeError for a string, list or interval, or for numbers mixed with Timestamps. On success the result is `Binned` |
| `Stages.Binned` | pricifier_project/deployment/pricifier/preprocessor.py:279-282 | Each coordinate present gets its bin column, missing exactly where the coordinate is; an existing bin column without its coordinate is kept, and nothing else changes |
| `Stages.SplitAmenities` | pricifier_project/deployment/pricifier/preprocessor.py:284-286 | With amenities, each row's labels are Python's `str` of the cell (or "" for NaN), stripped of braces and split on commas. `n_amenities` is their number, at least 1. Without amenities nothing changes |
| `Stages.SentimentScore` | pricifier_project/deployment/pricifier/preprocessor.py:107-113 | KeyError without descriptions; otherwise every row's sentiment, with nothing else changed |
| `Stages.ObjectivityScore` | pricifier_project/deployment/pricifier/preprocessor.py:115-120 | KeyError without descriptions; otherwise every row's objectivity, with nothing else changed |
| `Stages.DescriptionScores` | pricifier_project/deployment/pricifier/preprocessor.py:288-291 | KeyError without descriptions; otherwise each row's sentiment, objectivity and combined score from the two |
| `Stages.FitAmenityCounts` | pricifier_project/deployment/pricifier/preprocessor.py:218 | KeyError without amenities; otherwise a string's comma-separated piece count, and 0 for a non-string |
| `Stages.LuxuryPolicy` | pricifier_project/deployment/pricifier/preprocessor.py:293-296 | Each row's luxury flag, or 0 when there is no policy column |
| `Stages.CityScores` | pricifier_project/deployment/pricifier/preprocessor.py:298-299 | KeyError without cities; otherwise each row's city through both city tables |
| `Stages.CityScoreKnown` | pricifier_project/deployment/pricifier/preprocessor.py:298-299 | A city score is known exactly for the six tabled cities |
| `Stages.DaysRow` | pricifier_project/deployment/pricifier/preprocessor.py:301-302 | A missing column raises KeyError; otherwise the row's `day_since(first_review, last_review)` |
| `Stages.DaysBetweenReviews` | pricifier_project/deployment/pricifier/preprocessor.py:301-302 | Succeeds exactly on a frame without rows or with both review columns; otherwise a KeyError names the first missing one. Each row gets `day_since(first_review, last_review)`, and every other column is unchanged |
| `Stages.DaysBetweenIsGap` | pricifier_project/deployment/pricifier/preprocessor.py:301-302 | After the review dates are parsed, `days_between_reviews` equals `review_gap_days` on every row |
| `Stages.TenureRow` | pricifier_project/deployment/pricifier/preprocessor.py:306-312 | Reads `last_review`, then `host_since` (a KeyError for either absent column), then gives the row's host tenure or its TypeError/ValueError |
| `Stages.HostTenures` | pricifier_project/deployment/pricifier/preprocessor.py:306-312 | Succeeds exactly on a frame without rows, or with both columns and every row's tenure defined. Otherwise it raises a KeyError for `last_review`, then for `host_since`, else the first failing row's error (a TypeError for a None `host_since`, a ValueError for an unreadable one). Each row gets its host tenure, and every other column is unchanged |
| `Stages.NoneHostSinceRaises` | pricifier_project/deployment/pricifier/preprocessor.py:306-312 | A None `host_since` in the first row next to a readable last review makes `host_tenure` raise a TypeError |
| `Stages.DistanceRow` | pricifier_project/deployment/pricifier/preprocessor.py:197-203 | The city is read first (a KeyError without it), then the city-guarded distance |
| `Stages.DistanceToCenter` | pricifier_project/deployment/pricifier/preprocessor.py:196-206 | Succeeds exactly on a frame without rows, or with a city column and, when some row's city is known, both coordinates. Otherwise a KeyError names city, latitude or longitude, in that order. Each row gets the distance to its city's center, NaN for an unknown city, and every other column is unchanged |
| `Stages.DistanceWithoutCoordinates` | pricifier_project/deployment/pricifier/preprocessor.py:196-206 | Without coordinate columns, the step succeeds when no row's city is known, and every distance is then NaN |
| `Stages.SetRows` | pricifier_project/deployment/pricifier/preprocessor.py:301-312 | A column computed row by row with `apply`: it succeeds exactly when every row does, and then holds each row's value with every other column unchanged. Otherwise it raises the first failing row's error |
| `Stages.Dedup` | pricifier_project/deployment/pricifier/preprocessor.py:233 | `list(set(...))` keeps each label exactly once |
| `Stages.NumericNames` | pricifier_project/deployment/pricifier/preprocessor.py:231 | Exactly the numeric columns, each once |
| `Stages.FinalNames` | pricifier_project/deployment/pricifier/preprocessor.py:230-233 | `final_feature_names` has no duplicates and holds exactly the cluster features present plus all numeric columns |
| `Stages.ZeroFillEffect` | pricifier_project/deployment/pricifier/preprocessor.py:321-323 | Every listed column is present, holding its input values or zeros, and the existing columns are unchanged |
| `Stages.ZeroFill` | pricifier_project/deployment/pricifier/preprocessor.py:321-323 | The imperative loop computes exactly `ZeroFillOver` |
| `Stages.Assemble` | pricifier_project/deployment/pricifier/preprocessor.py:321-331 | The result has exactly the frozen names that are not dropped and whose filled column is numeric, each holding its input values or zeros; no identifier or date column survives |
| `AmenityScores.TextCells` | pricifier_project/deployment/pricifier/preprocessor.py:150 | Each amenities cell becomes text: a string stays, NaN becomes "", and any other value Python's `str` of it |
| `AmenityScores.FitSplits` | pricifier_project/deployment/pricifier/preprocessor.py:154 | Each row's labels: the cell's text with braces and quotes deleted, split on commas |
| `AmenityScores.WithSplit` | pricifier_project/deployment/pricifier/preprocessor.py:150-155 | The amenities become text, and `split_amenities` is computed only when the frame lacks it |
| `AmenityScores.WithStandard` | pricifier_project/deployment/pricifier/preprocessor.py:157-159 | `standard_amenities` and `amenities_str` are computed only when `amenities_str` is absent; otherwise the frame is unchanged |
| `AmenityScores.Prepared` | pricifier_project/deployment/pricifier/preprocessor.py:150-159 | KeyError without amenities; otherwise the text, split, standardised and joined columns as the guards at lines 153 and 157 decide |
| `AmenityScores.PreparedDocument` | pricifier_project/deployment/pricifier/preprocessor.py:150-159 | Without a precomputed `amenities_str`, each row's document is its canonical labels joined by commas |
| `AmenityScores.FormattedDocument` | pricifier_project/deployment/pricifier/preprocessor.py:154-159 | For a formatter output, the fit-time and transform-time documents coincide, and the tokenizer reads the canonical items back |
| `AmenityScores.Vocabulary` | pricifier_project/deployment/pricifier/preprocessor.py:163 | The vocabulary holds each token of some document, once |
| `AmenityScores.VocabularyNonEmpty` | pricifier_project/deployment/pricifier/preprocessor.py:12-13 | A non-empty corpus has a non-empty vocabulary, because `comma_tokenizer` always yields a token |
| `AmenityScores.TopFeaturesShape` | pricifier_project/deployment/pricifier/preprocessor.py:167 | The top features are distinct vocabulary terms, as many as the vocabulary has up to 30, and at least one for a non-empty corpus |
| `AmenityScores.ConcatEffect` | pricifier_project/deployment/pricifier/preprocessor.py:186 | Each appended feature column holds its weights, and every other column is the frame's |
| `AmenityScores.WithScoresKeeps` | pricifier_project/deployment/pricifier/preprocessor.py:183-186 | Every column is kept, and the two score columns are added |
| `AmenityScores.WithScoresEffect` | pricifier_project/deployment/pricifier/preprocessor.py:183-186 | The score is each row's sum of weights, and the normalised score that sum through the refitted scaler. The feature columns hold their weights, and nothing else changes |
| `AmenityScores.AmenityStep` | pricifier_project/deployment/pricifier/preprocessor.py:131-186 | The whole of `_compute_amenity_score`: a success keeps the frame's height and leaves the state fitted, a failure leaves the state unchanged, and the state stays consistent either way |
| `AmenityScores.Vectorize` | pricifier_project/deployment/pricifier/preprocessor.py:161-181 | On at least one document, the state is fitted afterwards, and the matrix has one row per document and one column per top feature |
| `AmenityScores.ScoreDocuments` | pricifier_project/deployment/pricifier/preprocessor.py:161-184 | Succeeds exactly on a frame with rows. Without rows the vectorizer raises a ValueError before any field changes, whether fitted or not. A success leaves the state fitted and keeps the frame's height |
| `AmenityScores.StepKeepsColumns` | pricifier_project/deployment/pricifier/preprocessor.py:183-186 | A successful `_compute_amenity_score` keeps every input column and adds the two score columns |
| `AmenityScores.FirstCallFreezes` | pricifier_project/deployment/pricifier/preprocessor.py:161-171 | The first successful call freezes the top features of its documents (at least one) and sets `fitted`, leaving the matrix alone; a failing first call changes nothing; it succeeds exactly on a non-empty frame with amenities |
| `AmenityScores.LaterCallsKeepFeatures` | pricifier_project/deployment/pricifier/preprocessor.py:172-181 | A fitted call keeps `fitted`, the top features and the corpus. A failing call changes nothing; a successful one replaces the matrix by the documents' weights restricted to the frozen features. It succeeds exactly on a non-empty frame with amenities |
| `AmenityScores.FeaturesFrozen` | pricifier_project/deployment/pricifier/preprocessor.py:161-181 | However many calls follow, the top features and the corpus stay those frozen by the first call |
| `AmenityScores.AmenityScore` | pricifier_project/deployment/pricifier/preprocessor.py:318-319 | AttributeError when no matrix was ever stored, NotFitted when the scaler was never fitted; otherwise each score is the stored row sum, standardised |
| `AmenityScores.ScoresAfterFittedCall` | pricifier_project/deployment/pricifier/preprocessor.py:315-319 | After a fitted call on a non-empty frame, lines 318-319 succeed, and each row's score is the sum of its document's weights for the frozen features |
| `Preprocessor.FitFeaturesColumns` | pricifier_project/deployment/pricifier/preprocessor.py:215-221 | A successful run of lines 215-221 keeps every column and adds the distance, the two description scores, the count and the two city scores |
| `Preprocessor.FitImputed` | pricifier_project/deployment/pricifier/preprocessor.py:209-212 | Succeeds exactly when every imputer can be fitted on its column. Otherwise the first that cannot raises: a KeyError when its column is absent, a ValueError otherwise. No column is lost |
| `Preprocessor.FitFrameHasClusterFeatures` | pricifier_project/deployment/pricifier/preprocessor.py:230 | A successful fit frame has every cluster feature but `room_type`, and has `room_type` whenever the input does |
| `Preprocessor.TransformFromOutput` | pricifier_project/deployment/pricifier/preprocessor.py:321-331 | What the tail of `transform` returns has only frozen names, no identifier or date column, and only numeric columns |
| `Preprocessor.TransformOutput` | pricifier_project/deployment/pricifier/preprocessor.py:238-331 | `transform` returns one row per input row, only frozen feature names, no dropped column, and only numeric columns |
| `Preprocessor.DataPreprocessor.constructor` | pricifier_project/deployment/pricifier/preprocessor.py:16-27 | Nothing fitted: no imputer values, no boolean encoders, no feature names, amenity state unfitted |
| `Preprocessor.DataPreprocessor.ComputeAmenityScore` | pricifier_project/deployment/pricifier/preprocessor.py:131-186 | The returned frame and the new amenity fields are those of `AmenityStep` on the old state |
| `Preprocessor.DataPreprocessor.ScoreDocuments` | pricifier_project/deployment/pricifier/preprocessor.py:161-184 | The returned frame and the new amenity fields are those of `AmenityScores.ScoreDocuments` |
| `Preprocessor.DataPreprocessor.Vectorize` | pricifier_project/deployment/pricifier/preprocessor.py:161-181 | The new fields and the matrix are those of `AmenityScores.Vectorize` |
| `Preprocessor.DataPreprocessor.FitImputerFills` | pricifier_project/deployment/pricifier/preprocessor.py:209-212 | The result is `FitImputed`. The imputers hold the learned values; after an error, those learned before the failing column |
| `Preprocessor.DataPreprocessor.FitRest` | pricifier_project/deployment/pricifier/preprocessor.py:213-236 | The amenity fields follow `AmenityStep`. After it the fit-time features are computed. An error there leaves the encoders and names alone. Otherwise `bool_encoders` is reassigned, and `final_feature_names` and `fitted` are set exactly when every boolean column is present; else the first missing one raises a KeyError, and the encoders are those of the boolean columns before it |
| `Preprocessor.DataPreprocessor.FitTail` | pricifier_project/deployment/pricifier/preprocessor.py:215-236 | The amenity fields are unchanged. An earlier error leaves the encoders and names alone. Otherwise the encoders are reassigned, and the names are frozen exactly when every boolean column is present; else the first missing one raises a KeyError, and the encoders are those of the boolean columns before it |
| `Preprocessor.DataPreprocessor.Fit` | pricifier_project/deployment/pricifier/preprocessor.py:208-236 | The imputers learn on their columns, up to the first one that cannot be fitted. The amenity state follows `FitFrame`. The encoders, names and outcome follow `Settled`, so a missing boolean column raises a KeyError for the first one, with the encoders of the boolean columns before it |
| `Preprocessor.DataPreprocessor.Prepare` | pricifier_project/deployment/pricifier/preprocessor.py:239-313 | The imperative steps before the amenity score compute `Prepped` with the fitted values, including its errors: the zero-row ValueErrors, `pd.cut`'s ValueError or TypeError, and the TypeError of a None `host_since` next to a last review |
| `Preprocessor.DataPreprocessor.Transform` | pricifier_project/deployment/pricifier/preprocessor.py:238-331 | The result and the new amenity state are `TransformSpec`: `Prepped`'s error if it fails (among them the TypeError of a None `host_since` next to a last review), else `TransformFrom`'s result; once fitted, `fitted`, the top features and the corpus are never changed |
| `Preprocessor.DataPreprocessor.TransformPrepared` | pricifier_project/deployment/pricifier/preprocessor.py:315-331 | The tail of `transform` computes `TransformFrom`, and keeps the frozen features |
| `Preprocessor.DataPreprocessor.FitTransform` | pricifier_project/deployment/pricifier/preprocessor.py:333-334 | A successful `fit_transform` leaves the object fitted, and returns only columns among the frozen `final_feature_names` |
| `Model.ClusterFit.constructor` | pricifier_project/deployment/pricifier/model.py:29-34 | The clusterer starts unfitted, with no fitted scaler, and with the given features, cluster count and library rules |
| `Model.ClusterFit.ScaleError` | pricifier_project/deployment/pricifier/model.py:37 | StandardScaler raises a ValueError on a selection without rows or without columns, and otherwise exactly what its validation refuses |
| `Model.ClusterFit.KMeansError` | pricifier_project/deployment/pricifier/model.py:33-38 | ValueError for zero clusters; otherwise KMeans accepts the scaled rows exactly when its validation does and there are at least as many rows as clusters |
| `Model.ClusterFit.Predicted` | pricifier_project/deployment/pricifier/model.py:41-45 | ValueError while unfitted. Then a KeyError names a missing cluster feature, NotFitted follows a failed scaler fit, and the scaler's and KMeans's validation errors follow. Otherwise the result is the labels of the fitted KMeans on the rows scaled by the fitted scaler |
| `Model.ClusterFit.Fit` | pricifier_project/deployment/pricifier/model.py:36-39 | Succeeds exactly when every cluster feature is present and both the scaler and KMeans accept the selection; then both are fitted on it and `fitted` becomes true. A failure keeps `fitted` and KMeans: a KeyError changes nothing, and a scaler error leaves the scaler unfitted |
| `Model.ClusterFit.Predict` | pricifier_project/deployment/pricifier/model.py:41-45 | Returns `Predicted` in the current state |
| `Model.ClusterFit.FitPredict` | pricifier_project/deployment/pricifier/model.py:47-49 | Fails exactly when `fit` does, keeping `fitted` and KMeans. Otherwise the result equals `predict` in the new state: the labels KMeans gives its own training rows |
| `Model.Bases` | pricifier_project/deployment/pricifier/model.py:107-115 | Every base is a name of the fixed order that the registry has, paired with its searched parameters or `{}` |
| `Model.Tuned` | pricifier_project/deployment/pricifier/model.py:86-96 | Below two rows the split in the first trial raises a ValueError; otherwise the study's result, or its error |
| `Model.StackScore` | pricifier_project/deployment/pricifier/model.py:117-120 | A ValueError without bases or below five rows (five-fold cross-validation); a success is the stacked model's RMSE |
| `Model.SearchFails` | pricifier_project/deployment/pricifier/model.py:82-105 | The family loop succeeds exactly when every searched family's study does; otherwise it raises the first failing study's error |
| `Model.SearchStopsAtError` | pricifier_project/deployment/pricifier/model.py:82-105 | Once a study has raised, the later families are not reached |
| `Model.SearchIsMinimum` | pricifier_project/deployment/pricifier/model.py:75-105 | After a successful loop, every searched family's study succeeded, and the kept RMSE, starting from +∞, is at most each study's value. It is the kept family's own value, or infinite with no model, study or type |
| `Model.SearchRecordsParams` | pricifier_project/deployment/pricifier/model.py:83-105 | "Stacking" is skipped, and every other name's best parameters are recorded in `optuna_params` |
| `Model.SearchKeepsEarliest` | pricifier_project/deployment/pricifier/model.py:98-103 | With strict `<`, every family before the kept one scored strictly worse, so ties keep the earliest |
| `Model.ChooseFails` | pricifier_project/deployment/pricifier/model.py:107-126 | For clusters 0, 1 and 2 a selection fails exactly when the family loop does, with its error, or after it the stacked model raises, with that error |
| `Model.SmallClusterFails` | pricifier_project/deployment/pricifier/model.py:88-126 | Below five rows no selection of clusters 0, 1 and 2 succeeds. The error is a ValueError unless, with at least two rows, a study raised its own error first |
| `Model.ChooseStacking` | pricifier_project/deployment/pricifier/model.py:107-126 | The final RMSE is at most the stacked one too. The type is "Stacking" exactly when stacking is strictly better, and then the study is None; otherwise the search result stands |
| `Model.ShippedBases` | pricifier_project/deployment/pricifier/model.py:168-172 | With the shipped registry the bases are RandomForest, GradientBoosting and Ridge, in that order, with their searched parameters |
| `Model.ShippedRegistry` | pricifier_project/deployment/pricifier/model.py:168-172 | The shipped registry has no "Stacking" entry and no name twice |
| `Model.RowsOf` | pricifier_project/deployment/pricifier/model.py:136 | The mask's rows are exactly the positions labelled `c` |
| `Model.RowsIncreasing` | pricifier_project/deployment/pricifier/model.py:139 | The masked rows are in increasing order, as `X[mask]` keeps them |
| `Model.ExactlyThreeClusters` | pricifier_project/deployment/pricifier/model.py:128-131 | Dictionaries started empty hold exactly the keys 0, 1 and 2 after the three assignments |
| `Model.Reached` | pricifier_project/deployment/pricifier/model.py:67-131 | How many clusters `fit_cluster_models` records: none when the labels do not have one entry per row, otherwise every cluster before the first whose selection fails, each of them successful |
| `Model.ModelPerCluster.constructor` | pricifier_project/deployment/pricifier/model.py:53-65 | Four empty dictionaries, and the given features and registry |
| `Model.ModelPerCluster.SearchFamilies` | pricifier_project/deployment/pricifier/model.py:82-105 | The family loop computes `Search` over the registry, stopping at the first study that raises |
| `Model.ModelPerCluster.StackBases` | pricifier_project/deployment/pricifier/model.py:108-115 | The base loop computes `Bases` in the fixed order |
| `Model.ModelPerCluster.SelectFor` | pricifier_project/deployment/pricifier/model.py:75-126 | One cluster's selection, or its first error, is `Choose` |
| `Model.ModelPerCluster.FitClusterModels` | pricifier_project/deployment/pricifier/model.py:67-131 | Clusters 0, 1 and 2 get their selections in all four dictionaries, in order, until one raises; no other key changes. It succeeds exactly when all three are reached. Otherwise it raises a ValueError for labels of the wrong length, or the failing selection's error |
| `Model.ModelPerCluster.ClusterOutput` | pricifier_project/deployment/pricifier/model.py:139-141 | A cluster's output has one value per row of the cluster, from a stored, non-None model |
| `Model.ModelPerCluster.Predicts` | pricifier_project/deployment/pricifier/model.py:133-142 | Succeeds exactly when every non-empty cluster's branch does, and otherwise raises the first failing branch's error. The length is `len(X)`; the k-th row of cluster c gets c's k-th output, and rows labelled outside 0..2 stay 0 |
| `Model.Scatter` | pricifier_project/deployment/pricifier/model.py:141 | `preds[mask] = out`: the k-th row of the cluster gets the k-th value, and every other entry is unchanged |

## Left out

- Foreign numerics are parameters. Nothing is assumed about the values they compute, and
  only the library errors listed at the top are written out as rules:
  - VADER polarity, TextBlob subjectivity, haversine, medians;
  - the TF-IDF weights, the ranking of terms by mean weight, and the MinMax and Standard scalers;
  - KMeans, Optuna's TPE search with its trial budget and timeout, `train_test_split`;
  - the regressors and `StackingRegressor`.
- Dates.Coerce: a numeric cell is NaT. pandas reads a number as nanoseconds since
  1970-01-01, so it would count from that day. The model's dates are day numbers with no
  finer clock.
- Dates.Strict: a numeric cell raises a ValueError, where pandas returns the same 1970
  timestamp, for the same reason. A bool, list or interval cell also raises a ValueError;
  which error pandas raises for these, if any, is not modelled.
- AmenityScores.DocumentText: a non-string `amenities_str` cell is read as "". Only a column
  the caller supplies can hold one. The vectorizer at line 163 would raise on NaN and on any
  value that cannot be split.
- AmenityScores.AsItems: a `split_amenities` cell that is not a list is read as no labels.
  Only a column the caller supplies can hold one. `map_amenities` at line 158 would iterate
  a string's characters, and raise on NaN.
- Stages.SetRows: on a frame without rows, the row-wise steps give an empty column
  without reading any column. What `apply(axis=1)` returns on an empty frame depends on the
  pandas version.
- Imputers.Learn: an imputer that cannot be fitted gets no fill value in the model. In
  scikit-learn a median imputer on a column without a present value stays fitted, with a
  NaN statistic. A later `transform` of that column raises at line 243 or 245 in both: an
  IndexError or a ValueError there, and `NotFitted` here.
- Features.Distance: a coordinate that is not a number is passed to `haversine` like any
  other cell, and the result is whatever cell `haversine` returns. In the source
  `np.radians` raises a TypeError on a string, a date, a list or an interval.
- Imputers.FitBools: the encoders' dtype checks are not modelled. scikit-learn converts the
  categories "f" and "t" to the column's dtype, which fails for a boolean column of numeric
  dtype (numbers, or all missing). The model fits an encoder for any present column, and
  `BoolEncode` reads such a column's cells at transform time.
- Stages.Bins: the kinds `pd.cut` accepts are reduced to two: numbers with bools, and
  Timestamps. The handling of an object column mixing bools with NaN is not reproduced in
  detail, and the interval edges themselves are not computed.
- Model.StackScore: the base fits at line 114 are folded into `stack`, after the rules for
  no bases and fewer than five rows. A base fit that raises on a cluster below five rows is
  therefore reported as that rule's ValueError.
- Floating point: numbers are `real`. The weights in `combine_sentiment_subjectivity`, the
  haversine formula and the `pd.cut` intervals are therefore not computed bit for bit.
- The search spaces `rf_space`, `gbr_space` and `ridge_space` are not modelled: they only
  feed Optuna.
- `ModelPerCluster.report` is not modelled: it only prints.
- `self.scaler.fit` on the top TF-IDF features (line 170) is not modelled, because nothing
  reads that scaler.
- Iteration order of `list(set(...))` at line 233: Python's set order is not modelled, and
  `Stages.Dedup` keeps first occurrences.
- Duplicate column labels from `pd.concat` at line 186 are not modelled: a label the frame
  already has is overwritten.
- Index alignment: frames carry a positional index, so an assignment aligns by position.
- Dtype inference is simplified: a column is numeric exactly when all its cells are numbers
  or missing.
- Idempotence of `transform` and the haversine round-trip and symmetry hold only of the
  foreign numerics, so they are not stated.
- The web front end (`views.py`, `forms.py`, `urls.py`) and the persistence scripts
  (`optimize_model.py`, `save_preprocessor.py`, `save_model.py`) are not part of this model.
- Preprocessor.DataPreprocessor.FitTransform: its contract states only the outcome of a
  successful call. The full state after it is the one `Fit` and `Transform` each state.
