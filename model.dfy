/**
 * The clustering guard and the per-cluster model selection of model.py. KMeans, the
 * scalers, the Optuna searches and the regressors are foreign: the labels KMeans assigns,
 * the best value and parameters of a study, the RMSE of a stacked model and the
 * predictions of a fitted model are parameters. What is modelled is the bookkeeping
 * around them: the `fitted` guard, the running minimum with its strict comparison, the
 * skipped "Stacking" entry, the stacking override, the four per-cluster dictionaries and
 * the masked scatter of `predicts`.
 */
module Model {
  import opened Wrappers
  import opened Frames

  // ---------------------------------------------------------------- ClusterFit

  /** `ClusterFit` (lines 28-49). The scaler and KMeans are foreign: `scaleRefuse` and
      `kmeansRefuse` stand for what their input validation refuses beyond the rules
      written out below, and `assign(s, k, x)` for the labels the KMeans fitted on the
      rows of `k` (scaled by their own mean and deviation) gives the rows of `x` scaled by
      the scaler fitted on `s`. */
  class ClusterFit {
    const clusterFeatures: seq<string>
    const nClusters: nat
    /** What StandardScaler refuses in selected columns that have rows and columns (a
        non-numeric cell, say). */
    const scaleRefuse: Frame -> Option<PyError>
    /** What KMeans's validation refuses in the scaled selection (a missing value, which
        the scaler keeps). */
    const kmeansRefuse: Frame -> Option<PyError>
    const assign: (Frame, Frame, Frame) -> seq<int>
    var fitted: bool
    /** The selected columns the scaler was last fitted on; None while it is unfitted. */
    var scalerOn: Option<Frame>
    /** The selected columns KMeans was last fitted on. */
    var kmeansOn: Option<Frame>

    ghost predicate Valid()
      reads this
    {
      Distinct(clusterFeatures) && (fitted <==> kmeansOn.Some?)
    }

    constructor (clusterFeatures: seq<string>, nClusters: nat, scaleRefuse: Frame -> Option<PyError>,
                 kmeansRefuse: Frame -> Option<PyError>, assign: (Frame, Frame, Frame) -> seq<int>)
      requires Distinct(clusterFeatures)
      ensures Valid() && !fitted && scalerOn.None?
      ensures this.clusterFeatures == clusterFeatures && this.nClusters == nClusters
      ensures this.scaleRefuse == scaleRefuse && this.kmeansRefuse == kmeansRefuse && this.assign == assign
    {
      this.clusterFeatures, this.nClusters := clusterFeatures, nClusters;
      this.scaleRefuse, this.kmeansRefuse, this.assign := scaleRefuse, kmeansRefuse, assign;
      fitted, scalerOn, kmeansOn := false, None, None;
    }

    /** What StandardScaler's `fit_transform` or `transform` raises on the selected
        columns: a ValueError when they have no row or there is no column, and otherwise
        what `scaleRefuse` says. */
    function ScaleError(s: Frame): (r: Option<PyError>)
      ensures s.height == 0 || clusterFeatures == [] ==> r == Some(ValueError)
      ensures r.None? <==> s.height > 0 && clusterFeatures != [] && scaleRefuse(s).None?
    {
      if s.height == 0 || clusterFeatures == [] then Some(ValueError) else scaleRefuse(s)
    }

    /** What `KMeans.fit` raises on the scaled selection: a ValueError for zero clusters
        (its parameter check comes first), then what its data validation refuses, then a
        ValueError for fewer rows than clusters. */
    function KMeansError(s: Frame): (r: Option<PyError>)
      ensures nClusters == 0 ==> r == Some(ValueError)
      ensures r.None? <==> 0 < nClusters <= s.height && kmeansRefuse(s).None?
    {
      if nClusters == 0 then Some(ValueError)
      else if kmeansRefuse(s).Some? then kmeansRefuse(s)
      else if s.height < nClusters then Some(ValueError)
      else None
    }

    /** What `predict` returns in the current state: a ValueError before any fit, a
        KeyError for a missing cluster feature, a NotFittedError when the last scaler fit
        failed, the validation errors of the scaler and KMeans, else the labels. */
    function Predicted(x: Frame): (r: Result<seq<int>>)
      requires Valid() && x.Valid()
      reads this
      ensures !fitted ==> r == Err(ValueError)
      ensures r.Ok? <==>
        fitted && x.HasAll(clusterFeatures) && scalerOn.Some?
        && ScaleError(x.Select(clusterFeatures).value).None? && kmeansRefuse(x.Select(clusterFeatures).value).None?
      ensures fitted && !x.HasAll(clusterFeatures) ==>
        exists n :: n in clusterFeatures && n !in x.cols && r == Err(KeyError(n))
      ensures fitted && x.HasAll(clusterFeatures) && scalerOn.None? ==> r == Err(NotFitted)
      ensures r.Ok? ==> r.value == assign(scalerOn.value, kmeansOn.value, x.Select(clusterFeatures).value)
    {
      if !fitted then Err(ValueError)
      else
        var sel :- x.Select(clusterFeatures);
        if scalerOn.None? then Err(NotFitted)
        else if ScaleError(sel).Some? then Err(ScaleError(sel).value)
        else if kmeansRefuse(sel).Some? then Err(kmeansRefuse(sel).value)
        else Ok(assign(scalerOn.value, kmeansOn.value, sel))
    }

    /** `fit` (lines 36-39). A KeyError leaves the object as it was. A scaler that refuses
        the selection is left unfitted (its fit starts by resetting it); KMeans refusing
        it leaves KMeans and `fitted` as they were, with the scaler already refitted.
        Otherwise both are fitted on the selection and `fitted` becomes true. */
    method Fit(x: Frame) returns (r: Outcome)
      requires Valid() && x.Valid()
      modifies this`fitted, this`scalerOn, this`kmeansOn
      ensures Valid()
      ensures r.Pass? <==>
        x.HasAll(clusterFeatures) && ScaleError(x.Select(clusterFeatures).value).None?
        && KMeansError(x.Select(clusterFeatures).value).None?
      ensures r.Pass? ==> fitted && scalerOn == kmeansOn == Some(x.Select(clusterFeatures).value)
      ensures r.Fail? ==> fitted == old(fitted) && kmeansOn == old(kmeansOn)
      ensures match x.Select(clusterFeatures)
        case Err(e) => r == Fail(e) && scalerOn == old(scalerOn)
        case Ok(s) =>
          if ScaleError(s).Some? then r == Fail(ScaleError(s).value) && scalerOn.None?
          else scalerOn == Some(s) && (KMeansError(s).Some? ==> r == Fail(KMeansError(s).value))
    {
      var sel := x.Select(clusterFeatures);
      if sel.Err? {
        return Fail(sel.error);
      }
      var s := sel.value;
      if ScaleError(s).Some? {
        scalerOn := None;
        return Fail(ScaleError(s).value);
      }
      scalerOn := Some(s);
      if KMeansError(s).Some? {
        return Fail(KMeansError(s).value);
      }
      kmeansOn := Some(s);
      fitted := true;
      return Pass;
    }

    /** `predict` (lines 41-45). */
    method Predict(x: Frame) returns (r: Result<seq<int>>)
      requires Valid() && x.Valid()
      ensures r == Predicted(x)
    {
      if !fitted {
        return Err(ValueError);
      }
      var sel := x.Select(clusterFeatures);
      if sel.Err? {
        return Err(sel.error);
      }
      if scalerOn.None? {
        return Err(NotFitted);
      }
      var e := ScaleError(sel.value);
      if e.Some? {
        return Err(e.value);
      }
      if kmeansRefuse(sel.value).Some? {
        return Err(kmeansRefuse(sel.value).value);
      }
      return Ok(assign(scalerOn.value, kmeansOn.value, sel.value));
    }

    /** `fit_predict` (lines 47-49): the error of `fit` when it fails, and otherwise what
        `predict` then returns on the same frame, the labels of the training rows
        themselves. */
    method FitPredict(x: Frame) returns (r: Result<seq<int>>)
      requires Valid() && x.Valid()
      modifies this`fitted, this`scalerOn, this`kmeansOn
      ensures Valid()
      ensures r.Ok? <==>
        x.HasAll(clusterFeatures) && ScaleError(x.Select(clusterFeatures).value).None?
        && KMeansError(x.Select(clusterFeatures).value).None?
      ensures r.Ok? ==>
        var s := x.Select(clusterFeatures).value;
        fitted && r == Predicted(x) && r == Ok(assign(s, s, s))
      ensures r.Err? ==> fitted == old(fitted) && kmeansOn == old(kmeansOn)
    {
      var o := Fit(x);
      if o.Fail? {
        return Err(o.error);
      }
      var s := x.Select(clusterFeatures).value;
      assert kmeansRefuse(s).None?;
      return Ok(assign(scalerOn.value, kmeansOn.value, s));
    }
  }

  // ---------------------------------------------------------------- scores and models

  /** An RMSE as a float: `float('inf')` or a finite value. */
  datatype Score = Infinity | Finite(x: real)

  /** Python's `<` on these floats. */
  predicate Less(a: Score, b: Score) {
    a.Finite? && (b.Infinity? || a.x < b.x)
  }

  /** `study.best_params`, with every value read as a real number. */
  type Params = map<string, real>

  /** An Optuna study as far as the selection reads it: `best_value` and `best_params`. */
  datatype Study = Study(best: Score, params: Params)

  /** A fitted regressor, identified by how it was built on the cluster's rows. */
  datatype Regressor =
    | Family(name: string, params: Params)      // `model_class(**study.best_params)`
    | Stacked(bases: seq<(string, Params)>)     // `StackingRegressor(estimators=..., final_estimator=Ridge())`

  /** The registry `model_types` (lines 168-172), in its insertion order. */
  const ModelTypes: seq<string> := ["RandomForest", "Ridge", "GradientBoosting"]

  /** The fixed order in which stacking bases are taken (line 109). */
  const BaseOrder: seq<string> := ["RandomForest", "GradientBoosting", "Ridge"]

  const Stacking: string := "Stacking"

  /** The locals of one cluster's iteration: `best_rmse`, `best_model`, `best_study`,
      `best_model_type` and `optuna_params`. */
  datatype Best = Best(rmse: Score, model: Option<Regressor>, study: Option<Study>, kind: Option<string>,
                       tuned: map<string, Params>)

  const Start: Best := Best(Infinity, None, None, None, map[])

  /** One family's study on a cluster of `size` rows (lines 86-105): the split at line 88
      leaves no training row below two rows and raises a ValueError from the first trial,
      which `optimize` passes on; otherwise `tune(c, name)` is the study, or the error a
      trial or the refit at line 103 raises. */
  function Tuned(tune: (nat, string) -> Result<Study>, size: nat, c: nat, name: string): (r: Result<Study>)
    ensures size < 2 ==> r == Err(ValueError)
    ensures size >= 2 ==> r == tune(c, name)
  {
    if size < 2 then Err(ValueError) else tune(c, name)
  }

  /** The family loop (lines 82-105) over the registry names `names`, for cluster `c` of
      `size` rows; the first study that raises ends the loop with its error. */
  function Search(tune: (nat, string) -> Result<Study>, size: nat, c: nat, names: seq<string>): (r: Result<Best>)
    decreases |names|
  {
    if names == [] then Ok(Start)
    else
      var b :- Search(tune, size, c, names[..|names| - 1]);
      var name := names[|names| - 1];
      if name == Stacking then Ok(b)
      else
        var st :- Tuned(tune, size, c, name);
        var b' := b.(tuned := b.tuned[name := st.params]);
        if Less(st.best, b.rmse) then
          Ok(b'.(rmse := st.best, model := Some(Family(name, st.params)), study := Some(st), kind := Some(name)))
        else Ok(b')
  }

  /** `optuna_params.get(name, {})`. */
  function ParamsOf(tuned: map<string, Params>, name: string): Params {
    if name in tuned then tuned[name] else map[]
  }

  /** The stacking bases (lines 108-115): the names of `order` that the registry has, in
      that order, with their searched parameters or none. */
  function Bases(order: seq<string>, registry: seq<string>, tuned: map<string, Params>): (r: seq<(string, Params)>)
    ensures |r| <= |order|
    ensures forall i :: 0 <= i < |r| ==> r[i].0 in order && r[i].0 in registry && r[i].1 == ParamsOf(tuned, r[i].0)
  {
    if order == [] then []
    else
      var rest := Bases(order[1..], registry, tuned);
      if order[0] in registry then [(order[0], ParamsOf(tuned, order[0]))] + rest else rest
  }

  /** The bases from position `j` on: the entry for `order[j]`, when the registry has it,
      then the bases after it. */
  lemma BasesUnfold(order: seq<string>, registry: seq<string>, tuned: map<string, Params>, j: nat)
    requires j < |order|
    ensures Bases(order[j..], registry, tuned)
            == (if order[j] in registry then [(order[j], ParamsOf(tuned, order[j]))] else [])
               + Bases(order[j + 1..], registry, tuned)
  {
    assert order[j..][0] == order[j] && order[j..][1..] == order[j + 1..];
  }

  /** The stacked model's in-sample RMSE (lines 117-120) on `size` rows: StackingRegressor
      raises a ValueError without bases, and its 5-fold cross-validation one below five
      rows; otherwise `stack(c, bases)` is the RMSE or the error a fit raises. */
  function StackScore(stack: (nat, seq<(string, Params)>) -> Result<Score>, size: nat, c: nat,
                      bases: seq<(string, Params)>): (r: Result<Score>)
    ensures bases == [] || size < 5 ==> r == Err(ValueError)
    ensures r.Ok? ==> bases != [] && size >= 5 && r == stack(c, bases)
  {
    if bases == [] || size < 5 then Err(ValueError) else stack(c, bases)
  }

  /** All of one cluster's selection (lines 75-126), for a cluster of `size` rows. */
  function Choose(tune: (nat, string) -> Result<Study>, stack: (nat, seq<(string, Params)>) -> Result<Score>,
                  registry: seq<string>, size: nat, c: nat): (r: Result<Best>)
  {
    var b :- Search(tune, size, c, registry);
    if c in [0, 1, 2] then
      var bases := Bases(BaseOrder, registry, b.tuned);
      var s :- StackScore(stack, size, c, bases);
      if Less(s, b.rmse) then Ok(b.(rmse := s, model := Some(Stacked(bases)), study := None, kind := Some(Stacking)))
      else Ok(b)
    else Ok(b)
  }

  // ---------------------------------------------------------------- properties of the selection

  /** The family loop fails exactly when some searched family's study raises, and then
      with the error of the first one. */
  lemma {:induction false} SearchFails(tune: (nat, string) -> Result<Study>, size: nat, c: nat, names: seq<string>)
    ensures Search(tune, size, c, names).Ok? <==>
      forall n :: n in names && n != Stacking ==> Tuned(tune, size, c, n).Ok?
    ensures Search(tune, size, c, names).Err? ==>
      exists k :: 0 <= k < |names| && names[k] != Stacking && Tuned(tune, size, c, names[k]).Err?
                  && Search(tune, size, c, names).error == Tuned(tune, size, c, names[k]).error
                  && forall j :: 0 <= j < k && names[j] != Stacking ==> Tuned(tune, size, c, names[j]).Ok?
    decreases |names|
  {
    if names != [] {
      var init, last := names[..|names| - 1], names[|names| - 1];
      assert names == init + [last];
      assert forall n :: n in names <==> n in init || n == last;
      SearchFails(tune, size, c, init);
      var p := Search(tune, size, c, init);
      if p.Err? {
        assert Search(tune, size, c, names) == p;
        var k :| 0 <= k < |init| && init[k] != Stacking && Tuned(tune, size, c, init[k]).Err?
                 && p.error == Tuned(tune, size, c, init[k]).error
                 && forall j :: 0 <= j < k && init[j] != Stacking ==> Tuned(tune, size, c, init[j]).Ok?;
        assert names[k] == init[k];
        assert forall j :: 0 <= j < k ==> names[j] == init[j];
      } else if last != Stacking && Tuned(tune, size, c, last).Err? {
        assert Search(tune, size, c, names) == Err(Tuned(tune, size, c, last).error);
        assert forall j :: 0 <= j < |init| ==> names[j] == init[j] && init[j] in init;
      } else {
        assert Search(tune, size, c, names).Ok?;
      }
    }
  }

  /** Once the family loop has raised, the names after that point are never reached. */
  lemma {:induction false} SearchStopsAtError(tune: (nat, string) -> Result<Study>, size: nat, c: nat,
                                              names: seq<string>, i: nat)
    requires i <= |names| && Search(tune, size, c, names[..i]).Err?
    ensures Search(tune, size, c, names) == Search(tune, size, c, names[..i])
    decreases |names| - i
  {
    if i < |names| {
      var init := names[..|names| - 1];
      assert init[..i] == names[..i];
      SearchStopsAtError(tune, size, c, init, i);
    } else {
      assert names[..i] == names;
    }
  }

  /** The running minimum: the kept RMSE is at most every searched study's value, it is
      infinite or the value of the kept family, and the kept model, study and type belong
      to that family. */
  lemma {:induction false} SearchIsMinimum(tune: (nat, string) -> Result<Study>, size: nat, c: nat, names: seq<string>)
    requires Search(tune, size, c, names).Ok?
    ensures forall n :: n in names && n != Stacking ==> Tuned(tune, size, c, n).Ok?
    ensures var b := Search(tune, size, c, names).value;
      forall n :: n in names && n != Stacking ==> !Less(Tuned(tune, size, c, n).value.best, b.rmse)
    ensures var b := Search(tune, size, c, names).value;
      (b.kind.None? <==> b.rmse.Infinity?) && (b.kind.None? ==> b.model.None? && b.study.None?)
    ensures var b := Search(tune, size, c, names).value;
      b.kind.Some? ==>
        var st := Tuned(tune, size, c, b.kind.value);
        b.kind.value in names && b.kind.value != Stacking && st.Ok? && b.study == Some(st.value)
        && b.rmse == st.value.best && b.model == Some(Family(b.kind.value, st.value.params))
    decreases |names|
  {
    if names != [] {
      var init, last := names[..|names| - 1], names[|names| - 1];
      assert names == init + [last];
      assert forall n :: n in names ==> n in init || n == last;
      SearchIsMinimum(tune, size, c, init);
    }
  }

  /** "Stacking" is never searched, and every other name has its study's parameters
      recorded in `optuna_params`. */
  lemma {:induction false} SearchRecordsParams(tune: (nat, string) -> Result<Study>, size: nat, c: nat,
                                               names: seq<string>)
    requires Search(tune, size, c, names).Ok?
    ensures var b := Search(tune, size, c, names).value;
      (forall n :: n in b.tuned <==> n in names && n != Stacking)
      && (forall n :: n in b.tuned ==> Tuned(tune, size, c, n).Ok? && b.tuned[n] == Tuned(tune, size, c, n).value.params)
    decreases |names|
  {
    if names != [] {
      var init, last := names[..|names| - 1], names[|names| - 1];
      assert names == init + [last];
      assert forall n :: n in names ==> n in init || n == last;
      SearchRecordsParams(tune, size, c, init);
    }
  }

  /** Ties keep the earliest family: every searched family before the kept one scored
      strictly worse. */
  lemma {:induction false} SearchKeepsEarliest(tune: (nat, string) -> Result<Study>, size: nat, c: nat,
                                               names: seq<string>, k: nat, j: nat)
    requires Distinct(names) && j < k < |names|
    requires Search(tune, size, c, names).Ok? && Search(tune, size, c, names).value.kind == Some(names[k])
    requires names[j] != Stacking
    ensures Tuned(tune, size, c, names[j]).Ok?
    ensures Less(Search(tune, size, c, names).value.rmse, Tuned(tune, size, c, names[j]).value.best)
    decreases |names|
  {
    var init, last := names[..|names| - 1], names[|names| - 1];
    assert names == init + [last];
    var b := Search(tune, size, c, init).value;
    SearchIsMinimum(tune, size, c, init);
    if k == |names| - 1 {
      // the last family won with a strict `<` against a minimum over the earlier ones
      assert names[j] in init;
    } else {
      // a later family that won would have replaced the kept type
      assert names[k] != last;
      assert Search(tune, size, c, names).value.rmse == b.rmse && b.kind == Some(init[k]);
      assert Distinct(init) && init[j] == names[j];
      SearchKeepsEarliest(tune, size, c, init, k, j);
    }
  }

  /** A cluster's selection fails exactly when its family loop does or, for the three
      clusters, when the stacked model raises; the family loop's error comes first. */
  lemma ChooseFails(tune: (nat, string) -> Result<Study>, stack: (nat, seq<(string, Params)>) -> Result<Score>,
                    registry: seq<string>, size: nat, c: nat)
    requires c < 3
    ensures var b := Search(tune, size, c, registry);
      var r := Choose(tune, stack, registry, size, c);
      (b.Err? ==> r == Err(b.error))
      && (b.Ok? ==> (r.Ok? <==> StackScore(stack, size, c, Bases(BaseOrder, registry, b.value.tuned)).Ok?))
      && (b.Ok? && r.Err? ==> r.error == StackScore(stack, size, c, Bases(BaseOrder, registry, b.value.tuned)).error)
  {
    assert c in [0, 1, 2];
  }

  /** Below five rows no cluster's selection succeeds: the search raises a ValueError
      below two, a study may raise its own error, and otherwise the stacked model's
      cross-validation raises a ValueError. */
  lemma SmallClusterFails(tune: (nat, string) -> Result<Study>, stack: (nat, seq<(string, Params)>) -> Result<Score>,
                          registry: seq<string>, size: nat, c: nat)
    requires c < 3 && size < 5
    ensures Choose(tune, stack, registry, size, c).Err?
    ensures size < 2 || Search(tune, size, c, registry).Ok? ==> Choose(tune, stack, registry, size, c) == Err(ValueError)
  {
    SearchFails(tune, size, c, registry);
    ChooseFails(tune, stack, registry, size, c);
    var b := Search(tune, size, c, registry);
    if b.Err? {
      var k :| 0 <= k < |registry| && registry[k] != Stacking && Tuned(tune, size, c, registry[k]).Err?
               && b.error == Tuned(tune, size, c, registry[k]).error;
    }
  }

  /** The stacking override (lines 122-126): for each of the three clusters, the kept
      RMSE is at most the stacked RMSE too; "Stacking" is the type exactly when it is
      strictly better than every searched family, and then the study is None. */
  lemma ChooseStacking(tune: (nat, string) -> Result<Study>, stack: (nat, seq<(string, Params)>) -> Result<Score>,
                       registry: seq<string>, size: nat, c: nat)
    requires c < 3 && Choose(tune, stack, registry, size, c).Ok?
    ensures Search(tune, size, c, registry).Ok?
    ensures var b := Search(tune, size, c, registry).value;
      var r := Choose(tune, stack, registry, size, c).value;
      var s := StackScore(stack, size, c, Bases(BaseOrder, registry, b.tuned));
      s.Ok? && !Less(s.value, r.rmse)
      && (forall n :: n in registry && n != Stacking ==> Tuned(tune, size, c, n).Ok? && !Less(Tuned(tune, size, c, n).value.best, r.rmse))
      && (r.kind == Some(Stacking) <==> Less(s.value, b.rmse))
      && (r.kind == Some(Stacking) ==> r.study.None? && r.rmse == s.value
                                       && r.model == Some(Stacked(Bases(BaseOrder, registry, b.tuned))))
      && (r.kind != Some(Stacking) ==> r == b)
  {
    assert c in [0, 1, 2];
    SearchIsMinimum(tune, size, c, registry);
  }

  /** With the shipped registry all three families are bases, in the order RandomForest,
      GradientBoosting, Ridge, each with its searched parameters; none of them is skipped. */
  lemma ShippedBases(tuned: map<string, Params>)
    ensures Bases(BaseOrder, ModelTypes, tuned)
            == [("RandomForest", ParamsOf(tuned, "RandomForest")), ("GradientBoosting", ParamsOf(tuned, "GradientBoosting")),
                ("Ridge", ParamsOf(tuned, "Ridge"))]
  {
    assert ModelTypes[0] == "RandomForest" && ModelTypes[1] == "Ridge" && ModelTypes[2] == "GradientBoosting";
    var last := BaseOrder[2..];
    assert last == ["Ridge"] && last[1..] == [];
    assert Bases(last, ModelTypes, tuned) == [("Ridge", ParamsOf(tuned, "Ridge"))];
    assert BaseOrder[1..][1..] == last;
    assert Bases(BaseOrder[1..], ModelTypes, tuned)
           == [("GradientBoosting", ParamsOf(tuned, "GradientBoosting")), ("Ridge", ParamsOf(tuned, "Ridge"))];
  }

  /** The shipped registry has no "Stacking" entry to skip, and no name twice. */
  lemma ShippedRegistry()
    ensures Stacking !in ModelTypes && Distinct(ModelTypes)
  {
    assert ModelTypes[0] == "RandomForest" && ModelTypes[1] == "Ridge" && ModelTypes[2] == "GradientBoosting";
  }

  // ---------------------------------------------------------------- dispatch by cluster

  /** The positions `i` with `labels[i] == c`, in increasing order: the rows of `mask`. */
  function RowsOf(labels: seq<int>, c: int): (r: seq<nat>)
    ensures forall k :: 0 <= k < |r| ==> r[k] < |labels| && labels[r[k]] == c
    ensures forall i :: 0 <= i < |labels| && labels[i] == c ==> i in r
    decreases |labels|
  {
    if labels == [] then []
    else
      var init := labels[..|labels| - 1];
      var rest := RowsOf(init, c);
      if labels[|labels| - 1] == c then rest + [|labels| - 1] else rest
  }

  /** The rows before `i` of its own cluster: `i` is the `Rank`-th row of its cluster. */
  function Rank(labels: seq<int>, i: nat): (r: nat)
    requires i < |labels|
    ensures r < |RowsOf(labels, labels[i])| && RowsOf(labels, labels[i])[r] == i
  {
    RowsPrefix(labels, i, labels[i]);
    |RowsOf(labels[..i], labels[i])|
  }

  /** The rows of a prefix are a prefix of the rows. */
  lemma {:induction false} RowsPrefix(labels: seq<int>, i: nat, c: int)
    requires i < |labels|
    ensures |RowsOf(labels[..i], c)| <= |RowsOf(labels, c)|
    ensures RowsOf(labels[..i], c) == RowsOf(labels, c)[..|RowsOf(labels[..i], c)|]
    ensures labels[i] == c ==>
      |RowsOf(labels[..i], c)| < |RowsOf(labels, c)| && RowsOf(labels, c)[|RowsOf(labels[..i], c)|] == i
    decreases |labels|
  {
    var init := labels[..|labels| - 1];
    if i == |labels| - 1 {
      assert labels[..i] == init;
    } else {
      assert init[..i] == labels[..i] && init[i] == labels[i];
      RowsPrefix(init, i, c);
    }
  }

  /** Within a cluster, `Rank` undoes `RowsOf`. */
  lemma RankOfRow(labels: seq<int>, c: int, k: nat)
    requires k < |RowsOf(labels, c)|
    ensures Rank(labels, RowsOf(labels, c)[k]) == k
  {
    var rows := RowsOf(labels, c);
    var i := rows[k];
    RowsIncreasing(labels, c);
    var q := Rank(labels, i);
    assert rows[q] == i;
  }

  /** The rows are listed in strictly increasing order. */
  lemma {:induction false} RowsIncreasing(labels: seq<int>, c: int)
    ensures forall p, q :: 0 <= p < q < |RowsOf(labels, c)| ==> RowsOf(labels, c)[p] < RowsOf(labels, c)[q]
    decreases |labels|
  {
    if labels != [] {
      var init := labels[..|labels| - 1];
      var earlier := RowsOf(init, c);
      RowsIncreasing(init, c);
      if labels[|labels| - 1] == c {
        var rows := earlier + [|labels| - 1];
        assert RowsOf(labels, c) == rows;
        forall p, q | 0 <= p < q < |rows|
          ensures rows[p] < rows[q]
        {
          assert rows[p] == earlier[p] && earlier[p] < |init|;
          if q < |earlier| {
            assert rows[q] == earlier[q];
            assert earlier[p] < earlier[q];
          } else {
            assert rows[q] == |init|;
          }
        }
      }
    }
  }

  /** `m` is `m0` with keys `0 .. c-1` assigned: those keys are present, every other key of
      `m0` keeps its value and no other key appears. */
  ghost predicate Extended<T>(m: map<int, T>, m0: map<int, T>, c: int) {
    (forall d :: d in m <==> d in m0 || 0 <= d < c)
    && (forall d :: d in m0 && !(0 <= d < c) ==> m[d] == m0[d])
  }

  /** Assigning key `c` extends the assigned range by one. */
  lemma ExtendedStep<T>(m: map<int, T>, m0: map<int, T>, c: int, v: T)
    requires 0 <= c && Extended(m, m0, c)
    ensures Extended(m[c := v], m0, c + 1)
  {
  }

  /** Dictionaries that started empty (as `__init__` leaves them) hold exactly the keys
      0, 1 and 2 once the three clusters are assigned. */
  lemma ExactlyThreeClusters<T>(m: map<int, T>)
    requires Extended(m, map[], 3)
    ensures m.Keys == {0, 1, 2}
  {
    assert forall d :: d in m.Keys <==> d in {0, 1, 2};
  }

  /** The selections of clusters 0, 1 and 2 under `labels`, each on its own rows. */
  function Selections(tune: (nat, string) -> Result<Study>, stack: (nat, seq<(string, Params)>) -> Result<Score>,
                      registry: seq<string>, labels: seq<int>): (r: seq<Result<Best>>)
    ensures |r| == 3
    ensures forall d :: 0 <= d < 3 ==> r[d] == Choose(tune, stack, registry, |RowsOf(labels, d)|, d)
  {
    [Choose(tune, stack, registry, |RowsOf(labels, 0)|, 0), Choose(tune, stack, registry, |RowsOf(labels, 1)|, 1),
     Choose(tune, stack, registry, |RowsOf(labels, 2)|, 2)]
  }

  /** The position of the first failed result from `c` on, or the length when none
      fails. */
  function FirstErr<T>(rs: seq<Result<T>>, c: nat): (r: nat)
    requires c <= |rs|
    ensures c <= r <= |rs|
    ensures forall d :: c <= d < r ==> rs[d].Ok?
    ensures r < |rs| ==> rs[r].Err?
    decreases |rs| - c
  {
    if c == |rs| || rs[c].Err? then c else FirstErr(rs, c + 1)
  }

  /** How many clusters `fit_cluster_models` records on a frame of `n` rows: none when the
      labels do not have one entry per row (the mask at line 72 raises), and otherwise
      every cluster before the first whose selection fails. */
  function Reached(tune: (nat, string) -> Result<Study>, stack: (nat, seq<(string, Params)>) -> Result<Score>,
                   registry: seq<string>, n: nat, labels: seq<int>): (r: nat)
    ensures r <= 3
    ensures |labels| != n ==> r == 0
    ensures forall d :: 0 <= d < r ==> Choose(tune, stack, registry, |RowsOf(labels, d)|, d).Ok?
    ensures |labels| == n && r < 3 ==> Choose(tune, stack, registry, |RowsOf(labels, r)|, r).Err?
  {
    if |labels| != n then 0 else FirstErr(Selections(tune, stack, registry, labels), 0)
  }

  /** Cluster `c`'s entries in the four dictionaries are those of the selection `b`. */
  ghost predicate Recorded(models: map<int, Option<Regressor>>, studies: map<int, Option<Study>>,
                           rmses: map<int, Score>, kinds: map<int, Option<string>>, c: int, b: Best) {
    c in models && c in studies && c in rmses && c in kinds
    && models[c] == b.model && studies[c] == b.study && rmses[c] == b.rmse && kinds[c] == b.kind
  }

  /** Recording one more successful selection, for cluster `c`, extends the assigned
      keys by one and keeps the entries of the clusters before it. */
  lemma RecordStep(models: map<int, Option<Regressor>>, studies: map<int, Option<Study>>, rmses: map<int, Score>,
                   kinds: map<int, Option<string>>, models0: map<int, Option<Regressor>>,
                   studies0: map<int, Option<Study>>, rmses0: map<int, Score>, kinds0: map<int, Option<string>>,
                   sels: seq<Result<Best>>, c: nat)
    requires c < |sels| && sels[c].Ok? && forall d :: 0 <= d < c ==> sels[d].Ok?
    requires Extended(models, models0, c) && Extended(studies, studies0, c)
    requires Extended(rmses, rmses0, c) && Extended(kinds, kinds0, c)
    requires forall d :: 0 <= d < c ==> Recorded(models, studies, rmses, kinds, d, sels[d].value)
    ensures var b := sels[c].value;
      Extended(models[c := b.model], models0, c + 1) && Extended(studies[c := b.study], studies0, c + 1)
      && Extended(rmses[c := b.rmse], rmses0, c + 1) && Extended(kinds[c := b.kind], kinds0, c + 1)
    ensures var b := sels[c].value;
      forall d :: 0 <= d <= c ==>
        Recorded(models[c := b.model], studies[c := b.study], rmses[c := b.rmse], kinds[c := b.kind], d, sels[d].value)
  {
    var b := sels[c].value;
    ExtendedStep(models, models0, c, b.model);
    ExtendedStep(studies, studies0, c, b.study);
    ExtendedStep(rmses, rmses0, c, b.rmse);
    ExtendedStep(kinds, kinds0, c, b.kind);
  }

  class ModelPerCluster {
    const features: seq<string>
    /** Line 55 fixes three clusters, whatever the caller wants. */
    const nClusters: nat := 3
    /** The names of `model_types`, in its iteration order. */
    const modelTypes: seq<string>
    var clusterModels: map<int, Option<Regressor>>
    var clusterStudies: map<int, Option<Study>>
    var clusterRmses: map<int, Score>
    var clusterModelTypes: map<int, Option<string>>

    /** `__init__` (lines 53-65): empty books. */
    constructor (features: seq<string>, modelTypes: seq<string>)
      ensures this.features == features && this.modelTypes == modelTypes
      ensures clusterModels == map[] && clusterStudies == map[] && clusterRmses == map[] && clusterModelTypes == map[]
    {
      this.features, this.modelTypes := features, modelTypes;
      clusterModels, clusterStudies, clusterRmses, clusterModelTypes := map[], map[], map[], map[];
    }

    /** The family loop (lines 82-105) for cluster `c` of `size` rows. */
    method SearchFamilies(tune: (nat, string) -> Result<Study>, size: nat, c: nat) returns (r: Result<Best>)
      ensures r == Search(tune, size, c, modelTypes)
    {
      var b := Start;
      var i := 0;
      while i < |modelTypes|
        invariant 0 <= i <= |modelTypes|
        invariant Search(tune, size, c, modelTypes[..i]) == Ok(b)
      {
        var name := modelTypes[i];
        assert modelTypes[..i + 1][..i] == modelTypes[..i];
        if name != Stacking {
          if size < 2 {
            // `train_test_split` in the first trial leaves no training row
            SearchStopsAtError(tune, size, c, modelTypes, i + 1);
            return Err(ValueError);
          }
          var st := tune(c, name);
          if st.Err? {
            SearchStopsAtError(tune, size, c, modelTypes, i + 1);
            return Err(st.error);
          }
          if Less(st.value.best, b.rmse) {
            b := b.(rmse := st.value.best, model := Some(Family(name, st.value.params)), study := Some(st.value),
                    kind := Some(name));
          }
          b := b.(tuned := b.tuned[name := st.value.params]);
        }
        i := i + 1;
      }
      assert modelTypes[..i] == modelTypes;
      return Ok(b);
    }

    /** The base loop (lines 108-115). */
    method StackBases(tuned: map<string, Params>) returns (bases: seq<(string, Params)>)
      ensures bases == Bases(BaseOrder, modelTypes, tuned)
    {
      bases := [];
      var j := 0;
      while j < |BaseOrder|
        invariant 0 <= j <= |BaseOrder|
        invariant bases + Bases(BaseOrder[j..], modelTypes, tuned) == Bases(BaseOrder, modelTypes, tuned)
      {
        var name := BaseOrder[j];
        BasesUnfold(BaseOrder, modelTypes, tuned, j);
        if name in modelTypes {
          bases := bases + [(name, ParamsOf(tuned, name))];
        }
        j := j + 1;
      }
    }

    /** One cluster's selection (lines 75-126), for a cluster of `size` rows. */
    method SelectFor(tune: (nat, string) -> Result<Study>, stack: (nat, seq<(string, Params)>) -> Result<Score>,
                     size: nat, c: nat)
      returns (r: Result<Best>)
      ensures r == Choose(tune, stack, modelTypes, size, c)
    {
      r := SearchFamilies(tune, size, c);
      if r.Err? {
        return;
      }
      var b := r.value;
      if c in [0, 1, 2] {
        var bases := StackBases(b.tuned);
        if bases == [] || size < 5 {
          // no estimators, or fewer rows than the five folds of the stacking fit
          return Err(ValueError);
        }
        var s := stack(c, bases);
        if s.Err? {
          return Err(s.error);
        }
        if Less(s.value, b.rmse) {
          b := b.(rmse := s.value, model := Some(Stacked(bases)), study := None, kind := Some(Stacking));
        }
      }
      return Ok(b);
    }

    /** `fit_cluster_models` (lines 67-131) on a frame of `n` rows: the clusters 0, 1 and
        2 get their selections in all four dictionaries, in that order, until one raises;
        the clusters before it stay recorded and no other key changes. */
    method FitClusterModels(tune: (nat, string) -> Result<Study>, stack: (nat, seq<(string, Params)>) -> Result<Score>,
                            n: nat, labels: seq<int>)
      returns (r: Outcome)
      modifies this`clusterModels, this`clusterStudies, this`clusterRmses, this`clusterModelTypes
      ensures var k := Reached(tune, stack, modelTypes, n, labels);
        Extended(clusterModels, old(clusterModels), k) && Extended(clusterStudies, old(clusterStudies), k)
        && Extended(clusterRmses, old(clusterRmses), k) && Extended(clusterModelTypes, old(clusterModelTypes), k)
      ensures var k, sels := Reached(tune, stack, modelTypes, n, labels), Selections(tune, stack, modelTypes, labels);
        forall c :: 0 <= c < k ==> Recorded(clusterModels, clusterStudies, clusterRmses, clusterModelTypes, c, sels[c].value)
      ensures r.Pass? <==> Reached(tune, stack, modelTypes, n, labels) == 3
      ensures var k, sels := Reached(tune, stack, modelTypes, n, labels), Selections(tune, stack, modelTypes, labels);
        r.Fail? ==> r.error == if |labels| != n then ValueError else sels[k].error
    {
      if |labels| != n {
        // the boolean mask of line 72 has the wrong length
        return Fail(ValueError);
      }
      ghost var sels := Selections(tune, stack, modelTypes, labels);
      ghost var k := Reached(tune, stack, modelTypes, n, labels);
      assert k == FirstErr(sels, 0);
      var c := 0;
      while c < nClusters
        invariant 0 <= c <= k
        invariant k == FirstErr(sels, c)
        invariant Extended(clusterModels, old(clusterModels), c) && Extended(clusterStudies, old(clusterStudies), c)
        invariant Extended(clusterRmses, old(clusterRmses), c) && Extended(clusterModelTypes, old(clusterModelTypes), c)
        invariant forall d :: 0 <= d < c ==> sels[d].Ok?
        invariant forall d :: 0 <= d < c ==> Recorded(clusterModels, clusterStudies, clusterRmses, clusterModelTypes, d, sels[d].value)
      {
        var rb := SelectFor(tune, stack, |RowsOf(labels, c)|, c);
        assert rb == sels[c];
        if rb.Err? {
          return Fail(rb.error);
        }
        var b := rb.value;
        RecordStep(clusterModels, clusterStudies, clusterRmses, clusterModelTypes, old(clusterModels), old(clusterStudies),
                   old(clusterRmses), old(clusterModelTypes), sels, c);
        clusterModels := clusterModels[c := b.model];
        clusterStudies := clusterStudies[c := b.study];
        clusterRmses := clusterRmses[c := b.rmse];
        clusterModelTypes := clusterModelTypes[c := b.kind];
        c := c + 1;
      }
      return Pass;
    }

    /** What cluster `c`'s branch of `predicts` yields for a frame of `n` rows:
        `X[mask]` raises a ValueError when the mask has the wrong length, the model lookup
        a KeyError, a None model an AttributeError, and the masked assignment a
        ValueError when the model returns the wrong number of values. */
    function ClusterOutput(predict: (Regressor, seq<nat>) -> seq<real>, labels: seq<int>, n: nat, c: int)
      : (r: Result<seq<real>>)
      reads this
      ensures r.Ok? ==> |r.value| == |RowsOf(labels, c)| && |labels| == n
      ensures r.Ok? ==> c in clusterModels && clusterModels[c].Some?
    {
      var rows := RowsOf(labels, c);
      if |labels| != n then Err(ValueError)
      else if c !in clusterModels then Err(KeyError(if c == 0 then "0" else if c == 1 then "1" else "2"))
      else if clusterModels[c].None? then Err(AttributeError("predict"))
      else
        var out := predict(clusterModels[c].value, rows);
        if |out| != |rows| then Err(ValueError) else Ok(out)
    }

    /** Row `i`'s output from its own cluster's model: the `Rank`-th value the model gives
        for the rows of that cluster. */
    function Dispatched(predict: (Regressor, seq<nat>) -> seq<real>, labels: seq<int>, n: nat, i: nat): real
      requires i < |labels|
      reads this
    {
      var out := ClusterOutput(predict, labels, n, labels[i]);
      if out.Ok? then out.value[Rank(labels, i)] else 0.0
    }

    /** `predicts` (lines 133-142): a zeroed array of length `n`; each row of a cluster
        0, 1 or 2 gets its cluster model's output, the k-th row of the cluster its k-th
        output; every other row stays 0. A cluster without rows is skipped, so its model
        is never looked up; the first failing cluster's error is raised. */
    method Predicts(predict: (Regressor, seq<nat>) -> seq<real>, n: nat, labels: seq<int>)
      returns (r: Result<seq<real>>)
      ensures r.Ok? <==> forall c :: 0 <= c < 3 && RowsOf(labels, c) != [] ==> ClusterOutput(predict, labels, n, c).Ok?
      ensures r.Err? ==>
        exists c :: 0 <= c < 3 && RowsOf(labels, c) != [] && ClusterOutput(predict, labels, n, c) == Err(r.error)
                    && forall d :: 0 <= d < c && RowsOf(labels, d) != [] ==> ClusterOutput(predict, labels, n, d).Ok?
      ensures r.Ok? ==> |r.value| == n
      ensures r.Ok? ==> forall i :: 0 <= i < n ==>
        r.value[i] == (if i < |labels| && 0 <= labels[i] < 3 then Dispatched(predict, labels, n, i) else 0.0)
    {
      var preds := new real[n](_ => 0.0);
      var c := 0;
      while c < nClusters
        invariant 0 <= c <= 3
        invariant forall d :: 0 <= d < c && RowsOf(labels, d) != [] ==> ClusterOutput(predict, labels, n, d).Ok?
        invariant forall i :: 0 <= i < n ==>
          preds[i] == (if i < |labels| && 0 <= labels[i] < c then Dispatched(predict, labels, n, i) else 0.0)
      {
        var rows := RowsOf(labels, c);
        if rows != [] {
          var out := ClusterOutput(predict, labels, n, c);
          if out.Err? {
            return Err(out.error);
          }
          Scatter(preds, labels, c, out.value);
          forall i | 0 <= i < n && labels[i] == c
            ensures preds[i] == Dispatched(predict, labels, n, i)
          {
          }
        } else {
          forall i | 0 <= i < n && i < |labels|
            ensures labels[i] != c
          {
          }
        }
        c := c + 1;
      }
      return Ok(preds[..]);
    }
  }

  /** `preds[mask] = out`: the k-th row of cluster `c` gets the k-th value, every other
      entry is left alone. */
  method Scatter(preds: array<real>, labels: seq<int>, c: int, out: seq<real>)
    requires preds.Length == |labels| && |out| == |RowsOf(labels, c)|
    modifies preds
    ensures forall i :: 0 <= i < preds.Length ==>
      preds[i] == (if labels[i] == c then out[Rank(labels, i)] else old(preds[i]))
  {
    var rows := RowsOf(labels, c);
    var k := 0;
    while k < |rows|
      invariant 0 <= k <= |rows|
      invariant forall i :: 0 <= i < preds.Length ==>
        preds[i] == (if labels[i] == c && Rank(labels, i) < k then out[Rank(labels, i)] else old(preds[i]))
    {
      RankOfRow(labels, c, k);
      var row := rows[k];
      forall i | 0 <= i < preds.Length && labels[i] == c && Rank(labels, i) == k
        ensures i == row
      {
      }
      preds[row] := out[k];
      k := k + 1;
    }
  }
}
