/** regression/predict.py: salaries predicted for every row of a feature
    matrix by the saved model, after the matrix and the model have been
    checked against each other. */
module Prediction {
  import opened Results
  import opened ArtifactStore
  import ModelIO
  import Training

  /** `load_x_data(path)`: the file must exist, numpy must read it, and it
      must be two-dimensional; the first check that fails decides the
      exception. */
  function LoadXData(files: map<string, Entry>, path: string): (r: Result<NdArray, Failure>)
    ensures r.Ok? <==> path in files && files[path].Npy? && files[path].data.Ndim() == 2
    ensures r.Ok? ==> r.value == files[path].data
    ensures path !in files ==> r == Err(FileNotFound(path, false))
    ensures r == Err(ValueError(Unreadable(path))) <==> path in files && !files[path].Npy?
    ensures path in files && files[path].Npy? && files[path].data.Ndim() != 2 ==>
              r == Err(ValueError(NotMatrix(files[path].data.Ndim())))
    ensures r.Err? && r.error.ValueError? && r.error.problem.NotMatrix? ==>
              path in files && files[path].Npy? && r.error.problem.ndim == files[path].data.Ndim() != 2
  {
    if path !in files then Err(FileNotFound(path, false))
    else
      match NpLoad(files[path])
      case None => Err(ValueError(Unreadable(path)))
      case Some(x) =>
        if x.Ndim() != 2 then Err(ValueError(NotMatrix(x.Ndim())))
        else Ok(x)
  }

  /** `predict_salaries(x_path)`: the matrix is loaded before the model; a
      matrix whose column count is not the model's `n_features_in_` raises
      ValueError naming both; otherwise there is one salary per row, in row
      order. `estimate(model, i)` is what `model.predict` gives for row `i`
      of the loaded matrix. */
  function PredictSalaries(files: map<string, Entry>, xPath: string, moduleFile: string,
                           estimate: (Obj, nat) -> real): (r: Result<seq<real>, Failure>)
    ensures LoadXData(files, xPath).Err? ==> r == Err(LoadXData(files, xPath).error)
    ensures LoadXData(files, xPath).Ok? && ModelIO.Load(files, moduleFile).Err? ==>
              r == Err(ModelIO.Load(files, moduleFile).error)
    ensures r.Ok? <==> && LoadXData(files, xPath).Ok? && ModelIO.Load(files, moduleFile).Ok?
                       && LoadXData(files, xPath).value.shape[1] == ModelIO.Load(files, moduleFile).value.nFeaturesIn.value
    ensures r.Ok? ==> && |r.value| == LoadXData(files, xPath).value.shape[0]
                      && forall i :: 0 <= i < |r.value| ==> r.value[i] == estimate(ModelIO.Load(files, moduleFile).value, i)
    ensures var x, m := LoadXData(files, xPath), ModelIO.Load(files, moduleFile);
            x.Ok? && m.Ok? && x.value.shape[1] != m.value.nFeaturesIn.value ==>
              r == Err(ValueError(FeatureMismatch(x.value.shape[1], m.value.nFeaturesIn.value)))
    ensures r.Err? && r.error.ValueError? && r.error.problem.FeatureMismatch? ==>
              && LoadXData(files, xPath).Ok? && ModelIO.Load(files, moduleFile).Ok?
              && r.error.problem.got == LoadXData(files, xPath).value.shape[1]
              && r.error.problem.expected == ModelIO.Load(files, moduleFile).value.nFeaturesIn.value
              && r.error.problem.got != r.error.problem.expected
  {
    var x :- LoadXData(files, xPath);
    var model :- ModelIO.Load(files, moduleFile);
    var expected := model.nFeaturesIn.value;
    if x.shape[1] != expected then Err(ValueError(FeatureMismatch(x.shape[1], expected)))
    else Ok(seq(x.shape[0], i requires 0 <= i < x.shape[0] => estimate(model, i)))
  }

  /** The model `train` saved accepts the matrix it was trained on: the
      prediction passes the feature-count check and gives a salary for each
      of its rows, each from the model refit on all of them. */
  lemma TrainThenPredict(d: Disk, denied: set<string>, dir: string, moduleFile: string,
                         shuffle: nat -> seq<nat>, fails: seq<nat> -> bool, estimate: (Obj, nat) -> real)
    requires forall n: nat :: Training.IsShuffle(shuffle(n), n)
    requires Training.Run(d, denied, dir, moduleFile, shuffle, fails).result.Ok?
    ensures var after := Training.Run(d, denied, dir, moduleFile, shuffle, fails).disk;
            var p := PredictSalaries(after.files, Training.XPath(dir), moduleFile, estimate);
            && p.Ok? && |p.value| == d.files[Training.XPath(dir)].data.shape[0]
            && forall i :: 0 <= i < |p.value| ==> p.value[i] == estimate(Training.FullRefit(d.files, dir), i)
  {
    var after := Training.Run(d, denied, dir, moduleFile, shuffle, fails).disk;
    var xPath := Training.XPath(dir);
    var path := ModelIO.ModelPath(moduleFile);
    assert xPath != path by {
      assert xPath[|xPath| - 1] == 'y';
      assert path[|path| - 1] == 'b';
    }
    assert after.files[xPath] == d.files[xPath];
    assert after.files[path] == Pickle(Training.FullRefit(d.files, dir));
  }
}
