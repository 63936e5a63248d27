/** chain_pattern/handlers/build_matrices.py: the feature matrix and the target
    vector of the prepared frame, saved as x_data.npy and y_data.npy. */
module BuildMatrices {
  import opened Results
  import opened Frames

  const Target := "salary"
  const Raw := "зп"
  const XFile := "x_data.npy"
  const YFile := "y_data.npy"

  /** An entry of a saved numpy array: a number, or NaN for a missing cell. */
  datatype Number = Value(x: real) | NaN

  /** What np.save writes: a two-dimensional array (rows of `width` entries) or a vector. */
  datatype NpyFile = NpyMatrix(rows: seq<seq<Number>>, width: nat) | NpyVector(values: seq<Number>)

  /** Both arrays, with the labels of the feature columns in matrix order. */
  datatype Matrices = Matrices(x: seq<seq<Number>>, y: seq<Number>, features: seq<string>)

  /** A cell of a numeric column as a numpy number. */
  function AsNumber(c: Cell): Number
    requires !c.Str?
  {
    match c
    case Int(i) => Value(i as real)
    case Real(r) => Value(r)
    case Missing => NaN
  }

  /** A column pandas stores with a numeric dtype: no text cell in it. */
  predicate NumericColumn(col: seq<Cell>) {
    forall i :: 0 <= i < |col| ==> !col[i].Str?
  }

  /** `df.drop(columns=["salary", "зп"]).select_dtypes(include=["number"]).columns`,
      computed over `names` in order. */
  function Features(t: Table, names: seq<string>): (f: seq<string>)
    requires forall n :: n in names ==> n in t.cols
    ensures forall n :: n in f <==> n in names && n != Target && n != Raw && NumericColumn(t.cols[n])
    ensures |f| <= |names|
    ensures Distinct(names) ==> Distinct(f)
  {
    if names == [] then []
    else
      var rest := Features(t, names[1..]);
      assert forall n :: n in names[1..] ==> n in names;
      assert Distinct(names) ==> names[0] !in names[1..] && Distinct(names[1..]);
      var n := names[0];
      if n != Target && n != Raw && NumericColumn(t.cols[n]) then [n] + rest else rest
  }

  /** Row `i` of column `n` as a numpy number. */
  function NumberAt(t: Table, n: string, i: nat): Number
    requires t.Valid() && n in t.cols && NumericColumn(t.cols[n]) && i < t.rows
  {
    assert |t.cols[n]| == t.rows;
    AsNumber(t.cols[n][i])
  }

  /** Row `i` of the feature matrix. */
  function Row(t: Table, features: seq<string>, i: nat): (row: seq<Number>)
    requires t.Valid() && i < t.rows
    requires forall k :: 0 <= k < |features| ==> features[k] in t.cols && NumericColumn(t.cols[features[k]])
    ensures |row| == |features|
    ensures forall k :: 0 <= k < |features| ==> row[k] == NumberAt(t, features[k], i)
  {
    seq(|features|, k requires 0 <= k < |features| => NumberAt(t, features[k], i))
  }

  /** The two arrays `process` computes, or the error it raises first: the
      target column is read before the two labels are dropped. */
  function Build(t: Table): (r: Result<Matrices, Error>)
    requires t.Valid()
    ensures r.Ok? <==> Target in t.cols && NumericColumn(t.cols[Target]) && Raw in t.cols
    ensures r.Err? ==> r.error == if Target !in t.cols then KeyError(Target)
                                  else if !NumericColumn(t.cols[Target]) then NotNumeric(Target)
                                  else KeyError(Raw)
    ensures r.Ok? ==> && r.value.features == Features(t, t.names)
                      && |r.value.y| == t.rows && |r.value.x| == t.rows
                      && (forall i :: 0 <= i < t.rows ==> r.value.y[i] == NumberAt(t, Target, i))
                      && (forall i :: 0 <= i < t.rows ==>
                            |r.value.x[i]| == |r.value.features|
                            && forall k :: 0 <= k < |r.value.features| ==>
                                 r.value.x[i][k] == NumberAt(t, r.value.features[k], i))
  {
    if Target !in t.cols then Err(KeyError(Target))
    else if !NumericColumn(t.cols[Target]) then Err(NotNumeric(Target))
    else if Raw !in t.cols then Err(KeyError(Raw))
    else
      var features := Features(t, t.names);
      Ok(Matrices(seq(t.rows, i requires 0 <= i < t.rows => Row(t, features, i)),
                  seq(t.rows, i requires 0 <= i < t.rows => NumberAt(t, Target, i)),
                  features))
  }

  /** `str(Path(dir) / name)`. */
  function OutputPath(dir: string, name: string): (p: string)
    ensures |p| >= |name| && p[|p| - |name|..] == name
  {
    if dir == "." then name
    else if dir != [] && dir[|dir| - 1] == '/' then dir + name
    else dir + "/" + name
  }

  /** The files after the two np.save calls. */
  function Saved(files: map<string, NpyFile>, dir: string, m: Matrices): map<string, NpyFile> {
    files[OutputPath(dir, XFile) := NpyMatrix(m.x, |m.features|)][OutputPath(dir, YFile) := NpyVector(m.y)]
  }

  /** The output directory: the files np.save has written, by path. */
  class NpyStore {
    var files: map<string, NpyFile>

    constructor ()
      ensures files == map[]
    {
      files := map[];
    }

    /** `np.save(path, a)`: creates or overwrites the file. */
    method Save(path: string, a: NpyFile)
      modifies this
      ensures files == old(files)[path := a]
    {
      files := files[path := a];
    }
  }

  /** `BuildMatricesHandler.process`: saves both arrays and hands on the frame unchanged. */
  method Process(df: DataFrame, dir: string, store: NpyStore) returns (r: Result<DataFrame, Error>)
    requires df.Valid()
    modifies store
    ensures match Build(df.Snapshot())
            case Ok(m) => r == Ok(df) && store.files == Saved(old(store.files), dir, m)
            case Err(e) => r == Err(e) && store.files == old(store.files)
  {
    var built := Build(df.Snapshot());
    if built.Err? {
      return Err(built.error);
    }
    var m := built.value;
    store.Save(OutputPath(dir, XFile), NpyMatrix(m.x, |m.features|));
    store.Save(OutputPath(dir, YFile), NpyVector(m.y));
    r := Ok(df);
  }

  /** The two saves land in different files, so both arrays are there afterwards. */
  lemma SavedBoth(files: map<string, NpyFile>, dir: string, m: Matrices)
    ensures Saved(files, dir, m)[OutputPath(dir, XFile)] == NpyMatrix(m.x, |m.features|)
    ensures Saved(files, dir, m)[OutputPath(dir, YFile)] == NpyVector(m.y)
  {
    var px, py := OutputPath(dir, XFile), OutputPath(dir, YFile);
    assert |XFile| == |YFile| == 10;
    assert px[|px| - 10..][0] == 'x' && py[|py| - 10..][0] == 'y';
    assert px != py;
  }
}
