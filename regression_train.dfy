/** regression/train.py: the chain pipeline's two arrays are checked, split
    for an evaluation fit, refit on every row and saved. */
module Training {
  import opened Results
  import Frames
  import opened ArtifactStore
  import BuildMatrices
  import ModelIO
  import Pipeline

  /** The two arrays `load_data` returns. */
  datatype Data = Data(x: NdArray, y: NdArray)

  /** `data_dir / "x_data.npy"`: the feature file directly inside `dir`. */
  function XPath(dir: string): (p: string)
    ensures |p| >= |BuildMatrices.XFile| && p[|p| - |BuildMatrices.XFile|..] == BuildMatrices.XFile
    ensures dir != [] && dir != "." && dir[|dir| - 1] != '/' ==> Pipeline.ParentDir(p) == dir
  {
    FileWithoutSlash(dir, BuildMatrices.XFile);
    BuildMatrices.OutputPath(dir, BuildMatrices.XFile)
  }

  /** `data_dir / "y_data.npy"`: the target file directly inside `dir`, never
      the feature file. */
  function YPath(dir: string): (p: string)
    ensures |p| >= |BuildMatrices.YFile| && p[|p| - |BuildMatrices.YFile|..] == BuildMatrices.YFile
    ensures dir != [] && dir != "." && dir[|dir| - 1] != '/' ==> Pipeline.ParentDir(p) == dir
    ensures p != XPath(dir)
  {
    FileWithoutSlash(dir, BuildMatrices.YFile);
    var p := BuildMatrices.OutputPath(dir, BuildMatrices.YFile);
    var x := XPath(dir);
    assert |BuildMatrices.XFile| == |BuildMatrices.YFile| == 10;
    assert p[|p| - 10] != x[|x| - 10];
    p
  }

  /** Neither file name holds a '/', so each sits directly in the directory. */
  lemma FileWithoutSlash(dir: string, name: string)
    requires name == BuildMatrices.XFile || name == BuildMatrices.YFile
    ensures dir != [] && dir != "." && dir[|dir| - 1] != '/' ==>
              Pipeline.ParentDir(BuildMatrices.OutputPath(dir, name)) == dir
  {
    assert forall i :: 0 <= i < |name| ==> name[i] != '/';
    if dir != [] && dir != "." && dir[|dir| - 1] != '/' {
      ModelIO.FileInDir(dir, name);
    }
  }

  /** What training needs of the directory: both files are arrays, a matrix
      and a vector with as many entries as the matrix has rows. */
  predicate Trainable(files: map<string, Entry>, dir: string) {
    && XPath(dir) in files && files[XPath(dir)].Npy?
    && YPath(dir) in files && files[YPath(dir)].Npy?
    && files[XPath(dir)].data.Ndim() == 2 && files[YPath(dir)].data.Ndim() == 1
    && files[XPath(dir)].data.shape[0] == files[YPath(dir)].data.shape[0]
  }

  /** `load_data(data_dir)`: a missing x_data.npy, then a missing y_data.npy,
      then either file unreadable, then the shape of X, of y, and their row
      counts; the first check that fails decides the exception. */
  function LoadDataFrom(files: map<string, Entry>, xPath: string, yPath: string, dir: string): (r: Result<Data, Failure>)
    ensures r.Ok? <==> && xPath in files && files[xPath].Npy? && yPath in files && files[yPath].Npy?
                       && files[xPath].data.Ndim() == 2 && files[yPath].data.Ndim() == 1
                       && files[xPath].data.shape[0] == files[yPath].data.shape[0]
    ensures r.Ok? ==> r.value == Data(files[xPath].data, files[yPath].data)
    ensures xPath !in files ==> r == Err(FileNotFound(xPath, false))
    ensures xPath in files && yPath !in files ==> r == Err(FileNotFound(yPath, false))
    ensures r == Err(FileNotFound(yPath, false)) && xPath != yPath ==> xPath in files && yPath !in files
    ensures xPath in files && yPath in files && !(files[xPath].Npy? && files[yPath].Npy?) ==>
              r == Err(ValueError(Unreadable(dir)))
    ensures r == Err(ValueError(Unreadable(dir))) ==> && xPath in files && yPath in files
                                                      && !(files[xPath].Npy? && files[yPath].Npy?)
    ensures && xPath in files && files[xPath].Npy? && yPath in files && files[yPath].Npy?
            && files[xPath].data.Ndim() != 2 ==>
              r == Err(ValueError(NotMatrix(files[xPath].data.Ndim())))
    ensures && xPath in files && files[xPath].Npy? && yPath in files && files[yPath].Npy?
            && files[xPath].data.Ndim() == 2 && files[yPath].data.Ndim() != 1 ==>
              r == Err(ValueError(NotVector(files[yPath].data.Ndim())))
    ensures && xPath in files && files[xPath].Npy? && yPath in files && files[yPath].Npy?
            && files[xPath].data.Ndim() == 2 && files[yPath].data.Ndim() == 1
            && files[xPath].data.shape[0] != files[yPath].data.shape[0] ==>
              r == Err(ValueError(RowMismatch(files[xPath].data.shape[0], files[yPath].data.shape[0])))
    ensures r.Err? && r.error.ValueError? && r.error.problem.NotVector? ==>
              && xPath in files && files[xPath].Npy? && yPath in files && files[yPath].Npy?
              && files[xPath].data.Ndim() == 2 && r.error.problem.ndim == files[yPath].data.Ndim() != 1
    ensures r.Err? && r.error.ValueError? && r.error.problem.RowMismatch? ==>
              && xPath in files && files[xPath].Npy? && yPath in files && files[yPath].Npy?
              && files[xPath].data.Ndim() == 2 && files[yPath].data.Ndim() == 1
              && r.error.problem.xRows == files[xPath].data.shape[0]
              && r.error.problem.yRows == files[yPath].data.shape[0]
              && r.error.problem.xRows != r.error.problem.yRows
  {
    if xPath !in files then Err(FileNotFound(xPath, false))
    else if yPath !in files then Err(FileNotFound(yPath, false))
    else
      match (NpLoad(files[xPath]), NpLoad(files[yPath]))
      case (Some(x), Some(y)) =>
        if x.Ndim() != 2 then Err(ValueError(NotMatrix(x.Ndim())))
        else if y.Ndim() != 1 then Err(ValueError(NotVector(y.Ndim())))
        else if x.shape[0] != y.shape[0] then Err(ValueError(RowMismatch(x.shape[0], y.shape[0])))
        else Ok(Data(x, y))
      case _ => Err(ValueError(Unreadable(dir)))
  }

  /** `load_data(data_dir)` on the two files of the directory. */
  function LoadData(files: map<string, Entry>, dir: string): (r: Result<Data, Failure>)
    ensures r.Ok? <==> Trainable(files, dir)
    ensures r.Ok? ==> r.value == Data(files[XPath(dir)].data, files[YPath(dir)].data)
    ensures XPath(dir) !in files ==> r == Err(FileNotFound(XPath(dir), false))
    ensures XPath(dir) in files && YPath(dir) !in files ==> r == Err(FileNotFound(YPath(dir), false))
    ensures var x, y := XPath(dir), YPath(dir);
            x in files && y in files && !(files[x].Npy? && files[y].Npy?) ==> r == Err(ValueError(Unreadable(dir)))
    ensures var x, y := XPath(dir), YPath(dir);
            x in files && files[x].Npy? && y in files && files[y].Npy? && files[x].data.Ndim() != 2 ==>
              r == Err(ValueError(NotMatrix(files[x].data.Ndim())))
    ensures var x, y := XPath(dir), YPath(dir);
            && x in files && files[x].Npy? && y in files && files[y].Npy?
            && files[x].data.Ndim() == 2 && files[y].data.Ndim() != 1 ==>
              r == Err(ValueError(NotVector(files[y].data.Ndim())))
    ensures var x, y := XPath(dir), YPath(dir);
            && x in files && files[x].Npy? && y in files && files[y].Npy?
            && files[x].data.Ndim() == 2 && files[y].data.Ndim() == 1
            && files[x].data.shape[0] != files[y].data.shape[0] ==>
              r == Err(ValueError(RowMismatch(files[x].data.shape[0], files[y].data.shape[0])))
  {
    LoadDataFrom(files, XPath(dir), YPath(dir), dir)
  }

  /** The number of test rows `train_test_split(test_size=0.2)` takes: a
      fifth of the rows, rounded up. */
  function TestSize(n: nat): nat {
    (n + 4) / 5
  }

  /** The test size is the least count whose five-fold covers the rows, that
      is ceil(0.2 * n); with two rows or more it leaves both sides non-empty. */
  lemma TestSizeCeiling(n: nat)
    ensures 5 * TestSize(n) >= n && (TestSize(n) == 0 || 5 * (TestSize(n) - 1) < n)
    ensures n >= 2 ==> 1 <= TestSize(n) < n
  {
  }

  /** `s` lists each of the rows 0 .. n-1 exactly once: the permutation that
      `random_state=42` draws. */
  predicate IsShuffle(s: seq<nat>, n: nat) {
    && |s| == n
    && (forall i :: 0 <= i < n ==> s[i] < n)
    && (forall v :: 0 <= v < n ==> v in s)
    && (forall i, j :: 0 <= i < j < n ==> s[i] != s[j])
  }

  /** The training rows and the test rows, as positions in the loaded arrays. */
  datatype Parts = Parts(train: seq<nat>, test: seq<nat>)

  /** `train_test_split(X, y, test_size=0.2, random_state=42)`: the first
      fifth of the shuffled rows is for testing, the rest for training; a
      split that leaves no training row raises ValueError. */
  function Split(n: nat, shuffle: seq<nat>): (r: Result<Parts, Failure>)
    requires IsShuffle(shuffle, n)
    ensures r.Err? <==> n < 2
    ensures r.Err? ==> r.error == ValueError(EmptyTrainSet)
    ensures r.Ok? ==> && |r.value.test| == TestSize(n) >= 1 && r.value.train != []
                      && |r.value.train| + |r.value.test| == n
    ensures r.Ok? ==> forall v :: 0 <= v < n ==> (v in r.value.train <==> v !in r.value.test)
    ensures r.Ok? ==> forall v :: v in r.value.train || v in r.value.test ==> v < n
  {
    var k := TestSize(n);
    if n <= k then Err(ValueError(EmptyTrainSet))
    else
      Partition(shuffle, n, k);
      Ok(Parts(shuffle[k..], shuffle[..k]))
  }

  /** Every row lies on exactly one side of a cut of the shuffle. */
  lemma Partition(s: seq<nat>, n: nat, k: nat)
    requires IsShuffle(s, n) && k <= n
    ensures forall v :: 0 <= v < n ==> (v in s[k..] <==> v !in s[..k])
  {
    forall v | 0 <= v < n
      ensures v in s[k..] <==> v !in s[..k]
    {
      RowOnOneSide(s, n, k, v);
    }
  }

  /** A row of the shuffle lies on exactly one side of a cut. */
  lemma RowOnOneSide(s: seq<nat>, n: nat, k: nat, v: nat)
    requires IsShuffle(s, n) && k <= n && v < n
    ensures v in s[k..] <==> v !in s[..k]
  {
    assert v in s;
    var j :| 0 <= j < n && s[j] == v;
    if j < k {
      assert s[..k][j] == v;
    } else {
      assert s[k..][j - k] == v;
    }
  }

  /** Every row in order: the rows of the final refit. */
  function AllRows(n: nat): (rows: seq<nat>)
    ensures |rows| == n && forall i :: 0 <= i < n ==> rows[i] == i
  {
    seq(n, i requires 0 <= i < n => i)
  }

  /** The pipeline `StandardScaler` + `GradientBoostingRegressor` that
      `train` builds; each `fit` replaces what it learned. */
  class Regressor {
    var trainedOn: Option<seq<nat>>
    var width: Option<nat>

    constructor ()
      ensures trainedOn == None && width == None
    {
      trainedOn := None;
      width := None;
    }

    /** `fit` on the given rows of a matrix of `w` columns; the estimator
        raises exactly on the row sets `fails` holds for, and is then left as
        it was. */
    method Fit(rows: seq<nat>, w: nat, fails: seq<nat> -> bool) returns (ok: bool)
      modifies this
      ensures ok == !fails(rows)
      ensures ok ==> trainedOn == Some(rows) && width == Some(w)
      ensures !ok ==> trainedOn == old(trainedOn) && width == old(width)
    {
      if fails(rows) {
        return false;
      }
      trainedOn := Some(rows);
      width := Some(w);
      return true;
    }

    /** The object joblib pickles: its `predict` is callable, and a fitted
        pipeline has `n_features_in_`. */
    function Pickled(): Obj
      reads this
    {
      Obj(Callable, width, trainedOn)
    }
  }

  /** What `train(data_dir)` leaves behind: validation, the split, the
      evaluation fit on the training rows, the refit on every row, then the
      save; the first step that raises ends it. */
  function Run(d: Disk, denied: set<string>, dir: string, moduleFile: string,
               shuffle: nat -> seq<nat>, fails: seq<nat> -> bool): (r: Outcome)
    requires forall n: nat :: IsShuffle(shuffle(n), n)
    ensures LoadData(d.files, dir).Err? ==> r == Outcome(Err(LoadData(d.files, dir).error), d)
    ensures r.result.Err? && !r.result.error.OSError? ==> r.disk == d
    ensures r.result.Ok? ==> && Trainable(d.files, dir)
                             && r.disk.files == d.files[ModelIO.ModelPath(moduleFile) := Pickle(FullRefit(d.files, dir))]
    ensures d.Valid() ==> r.disk.Valid()
    ensures Trainable(d.files, dir) ==>
              var n := d.files[XPath(dir)].data.shape[0];
              && (n < 2 ==> r == Outcome(Err(ValueError(EmptyTrainSet)), d))
              && (n >= 2 ==>
                    var train := Split(n, shuffle(n)).value.train;
                    && (fails(train) ==> r == Outcome(Err(ValueError(FitFailed)), d))
                    && (!fails(train) && fails(AllRows(n)) ==> r == Outcome(Err(EstimatorError), d))
                    && (!fails(train) && !fails(AllRows(n)) ==>
                          r == ModelIO.Save(d, denied, moduleFile, FullRefit(d.files, dir))))
  {
    match LoadData(d.files, dir)
    case Err(e) => Outcome(Err(e), d)
    case Ok(data) =>
      var n := data.x.shape[0];
      match Split(n, shuffle(n))
      case Err(e) => Outcome(Err(e), d)
      case Ok(parts) =>
        if fails(parts.train) then Outcome(Err(ValueError(FitFailed)), d)
        else if fails(AllRows(n)) then Outcome(Err(EstimatorError), d)
        else ModelIO.Save(d, denied, moduleFile, Obj(Callable, Some(data.x.shape[1]), Some(AllRows(n))))
  }

  /** The model `train` persists: fit on every row of the matrix, in order,
      with as many features as the matrix has columns. */
  function FullRefit(files: map<string, Entry>, dir: string): (o: Obj)
    requires Trainable(files, dir)
    ensures o.predict == Callable && o.nFeaturesIn == Some(files[XPath(dir)].data.shape[1])
    ensures o.trainedOn == Some(AllRows(files[XPath(dir)].data.shape[0]))
  {
    var x := files[XPath(dir)].data;
    Obj(Callable, Some(x.shape[1]), Some(AllRows(x.shape[0])))
  }

  /** `train(data_dir)` on the store. `fitted` lists the row sets the
      pipeline was fit on, in order. */
  method Train(store: FileStore, dir: string, moduleFile: string,
               shuffle: nat -> seq<nat>, fails: seq<nat> -> bool)
    returns (r: Result<(), Failure>, ghost fitted: seq<seq<nat>>)
    requires forall n: nat :: IsShuffle(shuffle(n), n)
    modifies store
    ensures Outcome(r, store.State()) == Run(old(store.State()), store.denied, dir, moduleFile, shuffle, fails)
    ensures LoadData(old(store.files), dir).Err? ==> fitted == []
    ensures r.Ok? ==> && |fitted| == 2
                      && fitted[1] == AllRows(old(store.files)[XPath(dir)].data.shape[0])
                      && multiset(fitted[0]) < multiset(fitted[1])
  {
    var loaded := LoadData(store.files, dir);
    if loaded.Err? {
      return Err(loaded.error), [];
    }
    var data := loaded.value;
    var n := data.x.shape[0];
    var split := Split(n, shuffle(n));
    if split.Err? {
      return Err(split.error), [];
    }
    var pipeline := new Regressor();
    var ok := pipeline.Fit(split.value.train, data.x.shape[1], fails);
    fitted := [split.value.train];
    if !ok {
      return Err(ValueError(FitFailed)), fitted;
    }
    ok := pipeline.Fit(AllRows(n), data.x.shape[1], fails);
    fitted := fitted + [AllRows(n)];
    if !ok {
      return Err(EstimatorError), fitted;
    }
    TrainingRowsAmongAll(n, shuffle(n), split.value);
    r := ModelIO.SaveModel(store, moduleFile, pipeline.Pickled());
  }

  /** The training rows are some of the rows, each once, and not all of them. */
  lemma TrainingRowsAmongAll(n: nat, shuffle: seq<nat>, parts: Parts)
    requires IsShuffle(shuffle, n) && Split(n, shuffle) == Ok(parts)
    ensures multiset(parts.train) < multiset(AllRows(n))
  {
    var k := TestSize(n);
    assert parts.train == shuffle[k..];
    assert shuffle == shuffle[..k] + shuffle[k..];
    ShuffleMultiset(shuffle, n);
    assert multiset(shuffle) == multiset(shuffle[..k]) + multiset(parts.train);
    assert |shuffle[..k]| >= 1;
    assert shuffle[..k][0] in multiset(shuffle[..k]);
  }

  /** A shuffle holds the same rows as the rows in order. */
  lemma ShuffleMultiset(s: seq<nat>, n: nat)
    requires IsShuffle(s, n)
    ensures multiset(s) == multiset(AllRows(n))
  {
    var all := AllRows(n);
    forall v
      ensures multiset(s)[v] == multiset(all)[v]
    {
      if 0 <= v < n {
        assert v in s;
        assert all[v] == v;
        DistinctCountsOnce(s, v);
        DistinctCountsOnce(all, v);
      } else {
        assert v !in s;
        assert v !in all;
      }
    }
  }

  /** In a sequence without repeats, an element occurs exactly once. */
  lemma {:induction false} DistinctCountsOnce(s: seq<nat>, v: nat)
    requires forall i, j :: 0 <= i < j < |s| ==> s[i] != s[j]
    requires v in s
    ensures multiset(s)[v] == 1
    decreases |s|
  {
    var last := s[|s| - 1];
    var init := s[..|s| - 1];
    assert s == init + [last];
    if v == last {
      assert v !in init;
    } else {
      assert v in init;
      DistinctCountsOnce(init, v);
    }
  }

  /** The chain pipeline's output directory passes `load_data`: the matrix
      has a row per table row and a column per feature, the vector an entry
      per table row. */
  lemma ChainOutputLoads(t: Frames.Table, m: BuildMatrices.Matrices, saved: map<string, BuildMatrices.NpyFile>, dir: string)
    requires t.Valid() && BuildMatrices.Build(t) == Ok(m)
    ensures LoadData(FromChain(BuildMatrices.Saved(saved, dir, m)), dir)
            == Ok(Data(NdArray([t.rows, |m.features|]), NdArray([t.rows])))
  {
    BuildMatrices.SavedBoth(saved, dir, m);
  }
}
