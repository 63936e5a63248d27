/** regression/model_io.py: the trained model lives in one fixed file,
    resources/salary_model.joblib next to the module; loading checks the file
    in a fixed order and saving creates the directory before writing. */
module ModelIO {
  import opened Results
  import opened ArtifactStore
  import Pipeline
  import BuildMatrices

  const ModelFile := "salary_model.joblib"
  const ResourcesName := "resources"

  /** `_resources_dir()`: the resources directory beside the module file
      `moduleFile`, given as a resolved path. */
  function ResourcesDir(moduleFile: string): (p: string)
    ensures |p| >= |ResourcesName| && p[|p| - |ResourcesName|..] == ResourcesName
    ensures p != "." && p[|p| - 1] == 's'
  {
    var p := BuildMatrices.OutputPath(Pipeline.ParentDir(moduleFile), ResourcesName);
    assert p[|p| - |ResourcesName|..][|ResourcesName| - 1] == 's';
    p
  }

  /** `get_model_path()`: the model file sits directly in the resources
      directory, under the fixed name. */
  function ModelPath(moduleFile: string): (p: string)
    ensures Pipeline.ParentDir(p) == ResourcesDir(moduleFile)
    ensures |p| >= |ModelFile| && p[|p| - |ModelFile|..] == ModelFile
  {
    var dir := ResourcesDir(moduleFile);
    ModelFileHasNoSlash();
    FileInDir(dir, ModelFile);
    BuildMatrices.OutputPath(dir, ModelFile)
  }

  lemma ModelFileHasNoSlash()
    ensures '/' !in ModelFile
  {
    assert forall i :: 0 <= i < |ModelFile| ==> ModelFile[i] != '/';
  }

  /** A file named without '/' in a directory that does not end in '/' has
      that directory as its parent. */
  lemma FileInDir(dir: string, name: string)
    requires '/' !in name && dir != [] && dir != "." && dir[|dir| - 1] != '/'
    ensures Pipeline.ParentDir(BuildMatrices.OutputPath(dir, name)) == dir
  {
    var p := BuildMatrices.OutputPath(dir, name);
    assert p == dir + "/" + name;
    Pipeline.LastSlashBeforeName(dir, name);
    assert p[..|dir|] == dir;
  }

  /** `load_model()` on the file `path`: the file must exist, joblib must
      read it, the object must have a callable `predict` and then an
      `n_features_in_`; the first check that fails decides the exception. */
  function LoadFrom(files: map<string, Entry>, path: string): (r: Result<Obj, Failure>)
    ensures r.Ok? <==> && path in files && files[path].Pickle?
                       && files[path].obj.predict == Callable && files[path].obj.nFeaturesIn.Some?
    ensures r.Ok? ==> r.value == files[path].obj
    ensures path !in files ==> r == Err(FileNotFound(path, true))
    ensures r.Err? && path in files ==> r.error.ValueError?
    ensures r == Err(ValueError(NoPredict)) ==> path in files && files[path].Pickle?
                                                && files[path].obj.predict != Callable
    ensures path in files && !files[path].Pickle? ==> r == Err(ValueError(Unreadable(path)))
    ensures path in files && files[path].Pickle? && files[path].obj.predict != Callable ==>
              r == Err(ValueError(NoPredict))
    ensures && path in files && files[path].Pickle? && files[path].obj.predict == Callable
            && files[path].obj.nFeaturesIn.None?
            ==> r == Err(ValueError(NoFeatureCount))
    ensures r == Err(ValueError(NoFeatureCount)) ==> && path in files && files[path].Pickle?
                                                     && files[path].obj.predict == Callable
                                                     && files[path].obj.nFeaturesIn.None?
  {
    if path !in files then Err(FileNotFound(path, true))
    else
      match JoblibLoad(files[path])
      case None => Err(ValueError(Unreadable(path)))
      case Some(o) =>
        if o.predict != Callable then Err(ValueError(NoPredict))
        else if o.nFeaturesIn.None? then Err(ValueError(NoFeatureCount))
        else Ok(o)
  }

  /** `load_model()`: reads the file `get_model_path()` names, so only the
      fixed file in the resources directory decides the outcome. */
  function Load(files: map<string, Entry>, moduleFile: string): (r: Result<Obj, Failure>)
    ensures var path := ModelPath(moduleFile);
            r.Ok? <==> && path in files && files[path].Pickle?
                       && files[path].obj.predict == Callable && files[path].obj.nFeaturesIn.Some?
    ensures r.Ok? ==> files[ModelPath(moduleFile)] == Pickle(r.value)
    ensures ModelPath(moduleFile) !in files ==> r == Err(FileNotFound(ModelPath(moduleFile), true))
    ensures forall other: map<string, Entry> ::
              (ModelPath(moduleFile) in other <==> ModelPath(moduleFile) in files) &&
              (ModelPath(moduleFile) in files ==> other[ModelPath(moduleFile)] == files[ModelPath(moduleFile)])
              ==> LoadFrom(other, ModelPath(moduleFile)) == r
  {
    LoadFrom(files, ModelPath(moduleFile))
  }

  /** `save_model(pipeline)` with the directory `dir` and the file `path` in
      it: the directory is made first, then the object is written; an OSError
      from either names the file. */
  function SaveTo(d: Disk, denied: set<string>, dir: string, path: string, obj: Obj): (r: Outcome)
    requires Pipeline.ParentDir(path) == dir && path != dir
    ensures r.result.Ok? <==> && (dir in d.dirs || (dir !in d.files && dir !in denied))
                              && path !in d.dirs && path !in denied
    ensures r.result.Ok? ==> r.disk.files == d.files[path := Pickle(obj)] && r.disk.dirs == d.dirs + {dir}
    ensures r.result.Err? ==> r.result.error == OSError(path) && r.disk.files == d.files
    ensures r.result.Err? ==> r.disk.dirs == if dir in d.dirs || (dir !in d.files && dir !in denied)
                                             then d.dirs + {dir} else d.dirs
    ensures d.Valid() ==> r.disk.Valid()
  {
    match MkDir(d, denied, dir)
    case None => Outcome(Err(OSError(path)), d)
    case Some(made) =>
      match Write(made, denied, path, obj)
      case None => Outcome(Err(OSError(path)), made)
      case Some(written) => Outcome(Ok(()), written)
  }

  /** `save_model(pipeline)`: into the resources directory, under the fixed
      name; the directory is created when missing, and a failure leaves every
      file as it was. */
  function Save(d: Disk, denied: set<string>, moduleFile: string, obj: Obj): (o: Outcome)
    ensures var dir, path := ResourcesDir(moduleFile), ModelPath(moduleFile);
            o.result.Ok? <==> && (dir in d.dirs || (dir !in d.files && dir !in denied))
                              && path !in d.dirs && path !in denied
    ensures o.result.Ok? ==> && o.disk.files == d.files[ModelPath(moduleFile) := Pickle(obj)]
                             && o.disk.dirs == d.dirs + {ResourcesDir(moduleFile)}
    ensures o.result.Err? ==> o.result.error == OSError(ModelPath(moduleFile)) && o.disk.files == d.files
    ensures var dir := ResourcesDir(moduleFile);
            o.result.Err? ==> o.disk.dirs == if dir in d.dirs || (dir !in d.files && dir !in denied)
                                             then d.dirs + {dir} else d.dirs
  {
    ModelPathInResources(moduleFile);
    SaveTo(d, denied, ResourcesDir(moduleFile), ModelPath(moduleFile), obj)
  }

  /** The model file is not the resources directory itself. */
  lemma ModelPathInResources(moduleFile: string)
    ensures ModelPath(moduleFile) != ResourcesDir(moduleFile)
  {
    var path := ModelPath(moduleFile);
    assert path[|path| - |ModelFile|..][|ModelFile| - 1] == 'b';
  }

  /** `save_model` on the store. */
  method SaveModel(store: FileStore, moduleFile: string, obj: Obj) returns (r: Result<(), Failure>)
    modifies store
    ensures Outcome(r, store.State()) == Save(old(store.State()), store.denied, moduleFile, obj)
  {
    var resources := ResourcesDir(moduleFile);
    var path := BuildMatrices.OutputPath(resources, ModelFile);
    var made := store.MakeDir(resources);
    if !made {
      return Err(OSError(path));
    }
    var written := store.Dump(path, obj);
    if !written {
      return Err(OSError(path));
    }
    return Ok(());
  }

  /** What `save_model` writes, `load_model` reads back: a saved object with
      a callable `predict` and a feature count loads as itself. */
  lemma SaveThenLoad(d: Disk, denied: set<string>, moduleFile: string, obj: Obj)
    requires Save(d, denied, moduleFile, obj).result.Ok?
    requires obj.predict == Callable && obj.nFeaturesIn.Some?
    ensures Load(Save(d, denied, moduleFile, obj).disk.files, moduleFile) == Ok(obj)
  {
    ModelPathInResources(moduleFile);
  }

  /** A saved object without what prediction needs is refused on loading,
      with the `predict` check before the feature-count check. */
  lemma SaveThenLoadRefused(d: Disk, denied: set<string>, moduleFile: string, obj: Obj)
    requires Save(d, denied, moduleFile, obj).result.Ok?
    requires obj.predict != Callable || obj.nFeaturesIn.None?
    ensures Load(Save(d, denied, moduleFile, obj).disk.files, moduleFile)
            == Err(ValueError(if obj.predict != Callable then NoPredict else NoFeatureCount))
  {
    ModelPathInResources(moduleFile);
  }

  /** Saving leaves every other file as it was. */
  lemma SaveKeepsOtherFiles(d: Disk, denied: set<string>, moduleFile: string, obj: Obj, p: string)
    requires p != ModelPath(moduleFile)
    ensures p in Save(d, denied, moduleFile, obj).disk.files <==> p in d.files
    ensures p in d.files ==> Save(d, denied, moduleFile, obj).disk.files[p] == d.files[p]
  {
    ModelPathInResources(moduleFile);
  }
}
