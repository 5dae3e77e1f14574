/**
 * A column-oriented model of the pandas DataFrames the preprocessor works on: an ordered
 * list of distinct column labels, one column of cells per label, all of one height. Rows
 * are addressed by position (the frames carry a default RangeIndex), so assigning a column
 * of values aligns them position by position.
 */
module Frames {
  import opened Wrappers

  /** One cell of a frame. `Missing` stands for NaN, None and NaT alike. */
  datatype Cell =
    | Missing
    | Num(x: real)              // an int or float value
    | Text(s: string)           // a Python str
    | Flag(b: bool)             // a bool (the dtype `select_dtypes(include=[np.number])` skips)
    | Day(d: int)               // a Timestamp, as a day number counted from 1970-01-01
    | Items(xs: seq<string>)    // a Python list of str
    | Bin                       // an interval category produced by `pd.cut`

  /** A cell that may sit in a column of numeric dtype. */
  predicate IsNumeric(c: Cell) {
    c.Num? || c.Missing?
  }

  /** No label occurs twice. */
  predicate Distinct(ns: seq<string>) {
    forall i, j :: 0 <= i < j < |ns| ==> ns[i] != ns[j]
  }

  /** A column of `h` copies of one value (`X[col] = value` with a scalar). */
  function Constant(h: nat, v: Cell): (r: seq<Cell>)
    ensures |r| == h && forall i :: 0 <= i < h ==> r[i] == v
  {
    seq(h, _ => v)
  }

  /** `[f(c) for c in col]` for cells. */
  function MapCells(col: seq<Cell>, f: Cell -> Cell): (r: seq<Cell>)
    ensures |r| == |col| && forall i :: 0 <= i < |col| ==> r[i] == f(col[i])
  {
    seq(|col|, i requires 0 <= i < |col| => f(col[i]))
  }

  /** A column computed by an operation that may raise on some cell: the first error, or
      every cell's value (`Series.apply` with a function that can raise). */
  function Collect(rs: seq<Result<Cell>>): (r: Result<seq<Cell>>)
    ensures r.Ok? <==> forall i :: 0 <= i < |rs| ==> rs[i].Ok?
    ensures r.Ok? ==> |r.value| == |rs| && forall i :: 0 <= i < |rs| ==> rs[i] == Ok(r.value[i])
    ensures r.Err? ==>
              exists k :: 0 <= k < |rs| && rs[k] == Err(r.error) && forall i :: 0 <= i < k ==> rs[i].Ok?
  {
    if rs == [] then Ok([])
    else if rs[0].Err? then Err(rs[0].error)
    else
      match Collect(rs[1..])
      case Ok(rest) => Ok([rs[0].value] + rest)
      case Err(e) =>
        var k :| 0 <= k < |rs[1..]| && rs[1..][k] == Err(e) && forall i :: 0 <= i < k ==> rs[1..][i].Ok?;
        assert rs[k + 1] == Err(e);
        Err(e)
  }

  /** The labels of `ns` that are not in `gone`, in their order. */
  function Without(ns: seq<string>, gone: set<string>): (r: seq<string>)
    ensures forall n :: n in r <==> n in ns && n !in gone
    ensures Distinct(ns) ==> Distinct(r)
  {
    if ns == [] then []
    else
      var rest := Without(ns[1..], gone);
      assert forall n :: n in ns[1..] ==> n in ns;
      if ns[0] in gone then rest else [ns[0]] + rest
  }

  /** The first label of `ns` outside `keys`. */
  function FirstAbsent(ns: seq<string>, keys: set<string>): (r: string)
    requires exists n :: n in ns && n !in keys
    ensures r in ns && r !in keys
  {
    if ns[0] !in keys then ns[0]
    else
      assert forall n :: n in ns && n != ns[0] ==> n in ns[1..];
      FirstAbsent(ns[1..], keys)
  }

  /** `FirstAbsent` is the label at the first position outside `keys`. */
  lemma {:induction false} FirstAbsentIs(ns: seq<string>, keys: set<string>, k: nat)
    requires k < |ns| && ns[k] !in keys && forall j :: 0 <= j < k ==> ns[j] in keys
    ensures FirstAbsent(ns, keys) == ns[k]
    decreases k
  {
    if k > 0 {
      assert ns[1..][k - 1] == ns[k];
      FirstAbsentIs(ns[1..], keys, k - 1);
    }
  }

  datatype Frame = Frame(names: seq<string>, cols: map<string, seq<Cell>>, height: nat) {

    /** The labels are distinct, they are exactly the keys of `cols`, and every column has
        one cell per row. */
    ghost predicate Valid() {
      Distinct(names)
      && (forall n :: n in names <==> n in cols)
      && (forall n :: n in cols ==> |cols[n]| == height)
    }

    /** `col in X.columns`. */
    predicate Has(col: string) {
      col in cols
    }

    /** Every label of `ns` is a column. */
    predicate HasAll(ns: seq<string>) {
      forall n :: n in ns ==> n in cols
    }

    /** A column whose every cell could sit in a numeric dtype. */
    predicate NumericColumn(col: string)
      requires col in cols
    {
      forall i :: 0 <= i < |cols[col]| ==> IsNumeric(cols[col][i])
    }

    /** `X[col]`: the column, or a KeyError when the frame has no such label. */
    function Column(col: string): (r: Result<seq<Cell>>)
      ensures r.Ok? <==> col in cols
      ensures r.Ok? ==> r.value == cols[col]
      ensures r.Err? ==> r.error == KeyError(col)
    {
      if col in cols then Ok(cols[col]) else Err(KeyError(col))
    }

    /** `X[col] = values`: overwrite an existing column in place, or append a new one at the
        end of the labels. */
    function Set(col: string, values: seq<Cell>): (r: Frame)
      requires Valid() && |values| == height
      ensures r.Valid() && r.height == height
      ensures r.cols == cols[col := values]
      ensures r.names == if col in cols then names else names + [col]
    {
      var ns := if col in cols then names else names + [col];
      assert forall i :: 0 <= i < |names| ==> names[i] in cols;
      Frame(ns, cols[col := values], height)
    }

    /** `X[ns]`: exactly the listed columns in the listed order, or a KeyError naming the
        first label the frame lacks. */
    function Select(ns: seq<string>): (r: Result<Frame>)
      requires Valid() && Distinct(ns)
      ensures r.Ok? <==> forall n :: n in ns ==> n in cols
      ensures r.Ok? ==> r.value.Valid() && r.value.names == ns && r.value.height == height
      ensures r.Ok? ==> forall n :: n in ns ==> r.value.cols[n] == cols[n]
      ensures r.Err? ==> exists n :: n in ns && n !in cols && r.error == KeyError(n)
    {
      if forall n :: n in ns ==> n in cols then
        Ok(Frame(ns, map n | n in ns :: cols[n], height))
      else
        Err(KeyError(FirstAbsent(ns, cols.Keys)))
    }

    /** `X.drop(columns=gone, errors='ignore')`. */
    function Drop(gone: set<string>): (r: Frame)
      requires Valid()
      ensures r.Valid() && r.height == height
      ensures r.names == Without(names, gone)
      ensures forall n :: n in r.cols <==> n in cols && n !in gone
      ensures forall n :: n in r.cols ==> r.cols[n] == cols[n]
    {
      Frame(Without(names, gone), map n | n in cols && n !in gone :: cols[n], height)
    }

    /** `X.select_dtypes(include=[np.number])`: the columns of numeric dtype, in order. */
    function KeepNumeric(): (r: Frame)
      requires Valid()
      ensures r.Valid() && r.height == height
      ensures forall n :: n in r.cols <==> n in cols && NumericColumn(n)
      ensures forall n :: n in r.cols ==> r.cols[n] == cols[n]
    {
      var gone := set n | n in cols && !NumericColumn(n);
      Frame(Without(names, gone), map n | n in cols && NumericColumn(n) :: cols[n], height)
    }
  }

  /** Outside `changed` the two frames have the same labels and the same columns. */
  ghost predicate Untouched(x: Frame, y: Frame, changed: set<string>) {
    forall c :: c !in changed ==> (c in y.cols <==> c in x.cols) && (c in x.cols ==> y.cols[c] == x.cols[c])
  }

  /** Two column assignments in a row, to distinct labels. */
  function Set2(x: Frame, a: string, va: seq<Cell>, b: string, vb: seq<Cell>): (r: Frame)
    requires x.Valid() && |va| == x.height && |vb| == x.height && a != b
    ensures r.Valid() && r.height == x.height && Untouched(x, r, {a, b})
    ensures a in r.cols && b in r.cols && r.cols[a] == va && r.cols[b] == vb
  {
    x.Set(a, va).Set(b, vb)
  }

  /** Three column assignments in a row, to distinct labels. */
  function Set3(x: Frame, a: string, va: seq<Cell>, b: string, vb: seq<Cell>, c: string, vc: seq<Cell>): (r: Frame)
    requires x.Valid() && |va| == x.height && |vb| == x.height && |vc| == x.height
    requires a != b && a != c && b != c
    ensures r.Valid() && r.height == x.height && Untouched(x, r, {a, b, c})
    ensures a in r.cols && b in r.cols && c in r.cols && r.cols[a] == va && r.cols[b] == vb && r.cols[c] == vc
  {
    Set2(x, a, va, b, vb).Set(c, vc)
  }

  /** Four column assignments in a row, to distinct labels. */
  function Set4(x: Frame, a: string, va: seq<Cell>, b: string, vb: seq<Cell>,
                c: string, vc: seq<Cell>, d: string, vd: seq<Cell>): (r: Frame)
    requires x.Valid() && |va| == x.height && |vb| == x.height && |vc| == x.height && |vd| == x.height
    requires a != b && a != c && a != d && b != c && b != d && c != d
    ensures r.Valid() && r.height == x.height && Untouched(x, r, {a, b, c, d})
    ensures a in r.cols && b in r.cols && c in r.cols && d in r.cols
    ensures r.cols[a] == va && r.cols[b] == vb && r.cols[c] == vc && r.cols[d] == vd
  {
    Set3(x, a, va, b, vb, c, vc).Set(d, vd)
  }

  /** Leaving columns alone composes. */
  lemma UntouchedTrans(x: Frame, y: Frame, z: Frame, a: set<string>, b: set<string>)
    requires Untouched(x, y, a) && Untouched(y, z, b)
    ensures Untouched(x, z, a + b)
  {
  }

  /** `row[col]` for row `i`: the cell, or nothing when the frame has no such column. */
  function CellAt(x: Frame, col: string, i: nat): (r: Option<Cell>)
    requires x.Valid() && i < x.height
    ensures r.Some? <==> col in x.cols
    ensures r.Some? ==> r.value == x.cols[col][i]
  {
    if col in x.cols then Some(x.cols[col][i]) else None
  }

  /** Every row of the new column, and every other column, is as assigned. */
  lemma SetThenColumn(f: Frame, col: string, other: string, values: seq<Cell>)
    requires f.Valid() && |values| == f.height
    ensures f.Set(col, values).Column(col) == Ok(values)
    ensures other != col ==> f.Set(col, values).Column(other) == f.Column(other)
  {
  }
}
