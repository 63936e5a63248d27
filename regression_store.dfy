/** The files the regression package reads and writes: numpy arrays, known by
    their shape, objects pickled by joblib, files neither library can read,
    and the directories that hold them. */
module ArtifactStore {
  import opened Results
  import Pipeline
  import BuildMatrices

  /** A numpy array by its shape; its `ndim` is the length of the shape. */
  datatype NdArray = NdArray(shape: seq<nat>) {
    function Ndim(): nat { |shape| }
  }

  /** How an object answers `hasattr(o, "predict")` and `callable(o.predict)`. */
  datatype Attr = Absent | NotCallable | Callable

  /** A pickled Python object: its `predict` attribute, its `n_features_in_`
      attribute when it has one, and, for a fitted model, the rows of the
      training data it was last fit on. */
  datatype Obj = Obj(predict: Attr, nFeaturesIn: Option<nat>, trainedOn: Option<seq<nat>>)

  /** A regular file: an array np.save wrote, an object joblib.dump wrote, or
      bytes neither library reads back. */
  datatype Entry = Npy(data: NdArray) | Pickle(obj: Obj) | Garbage

  /** The regular files by path, and the directories. */
  datatype Disk = Disk(files: map<string, Entry>, dirs: set<string>) {
    /** No path is both a regular file and a directory. */
    predicate Valid() {
      files.Keys !! dirs
    }
  }

  /** What a ValueError raised by the regression package is about; the counts
      its message names are kept. */
  datatype Problem =
    | Unreadable(path: string)
    | NotMatrix(ndim: nat)
    | NotVector(ndim: nat)
    | RowMismatch(xRows: nat, yRows: nat)
    | NoPredict
    | NoFeatureCount
    | EmptyTrainSet
    | FitFailed
    | FeatureMismatch(got: nat, expected: nat)

  /** The exceptions the regression package raises. `trainFirst` marks the
      message that tells the user to run training first; `EstimatorError` is
      an exception of the estimator that is passed on as it is. */
  datatype Failure =
    | FileNotFound(path: string, trainFirst: bool)
    | ValueError(problem: Problem)
    | OSError(path: string)
    | EstimatorError

  /** The end of an operation that may raise half-way: its result and the
      disk as it left it. */
  datatype Outcome = Outcome(result: Result<(), Failure>, disk: Disk)

  /** `np.load(path, allow_pickle=False)` on a regular file: only an array
      file loads. */
  function NpLoad(e: Entry): Option<NdArray> {
    match e
    case Npy(a) => Some(a)
    case _ => None
  }

  /** `joblib.load(path)` on a regular file: only a pickled object loads. */
  function JoblibLoad(e: Entry): Option<Obj> {
    match e
    case Pickle(o) => Some(o)
    case _ => None
  }

  /** `Path(p).mkdir(parents=True, exist_ok=True)`: nothing to do for an
      existing directory; a regular file in the way, or a path the system
      refuses, raises OSError. */
  function MkDir(d: Disk, denied: set<string>, p: string): (r: Option<Disk>)
    ensures r.None? <==> p !in d.dirs && (p in d.files || p in denied)
    ensures r.Some? ==> r.value.files == d.files && r.value.dirs == d.dirs + {p}
    ensures d.Valid() && r.Some? ==> r.value.Valid()
  {
    if p in d.dirs then Some(d)
    else if p in d.files || p in denied then None
    else Some(Disk(d.files, d.dirs + {p}))
  }

  /** `joblib.dump(obj, p)`: creates or replaces the regular file `p`; it
      raises OSError when the directory `p` goes in is missing, when `p` is a
      directory, or when the system refuses the path. */
  function Write(d: Disk, denied: set<string>, p: string, obj: Obj): (r: Option<Disk>)
    ensures r.Some? <==> Pipeline.ParentDir(p) in d.dirs && p !in d.dirs && p !in denied
    ensures r.Some? ==> r.value.files == d.files[p := Pickle(obj)] && r.value.dirs == d.dirs
    ensures d.Valid() && r.Some? ==> r.value.Valid()
  {
    if Pipeline.ParentDir(p) !in d.dirs || p in d.dirs || p in denied then None
    else Some(Disk(d.files[p := Pickle(obj)], d.dirs))
  }

  /** The file system the package works on; `denied` are the paths the system
      refuses to create or write. */
  class FileStore {
    var files: map<string, Entry>
    var dirs: set<string>
    const denied: set<string>

    constructor (files0: map<string, Entry>, dirs0: set<string>, denied0: set<string>)
      ensures files == files0 && dirs == dirs0 && denied == denied0
    {
      files := files0;
      dirs := dirs0;
      denied := denied0;
    }

    function State(): Disk
      reads this
    {
      Disk(files, dirs)
    }

    /** `mkdir(parents=True, exist_ok=True)`; false when it raises. */
    method MakeDir(p: string) returns (ok: bool)
      modifies this
      ensures ok == MkDir(old(State()), denied, p).Some?
      ensures State() == if ok then MkDir(old(State()), denied, p).value else old(State())
    {
      if p in dirs {
        return true;
      }
      if p in files || p in denied {
        return false;
      }
      dirs := dirs + {p};
      return true;
    }

    /** `joblib.dump(obj, p)`; false when it raises. */
    method Dump(p: string, obj: Obj) returns (ok: bool)
      modifies this
      ensures ok == Write(old(State()), denied, p, obj).Some?
      ensures State() == if ok then Write(old(State()), denied, p, obj).value else old(State())
    {
      if Pipeline.ParentDir(p) !in dirs || p in dirs || p in denied {
        return false;
      }
      files := files[p := Pickle(obj)];
      return true;
    }
  }

  /** The shape of an array the chain pipeline saved. */
  function ShapeOf(f: BuildMatrices.NpyFile): (a: NdArray)
    ensures f.NpyMatrix? ==> a.Ndim() == 2 && a.shape[0] == |f.rows| && a.shape[1] == f.width
    ensures f.NpyVector? ==> a.Ndim() == 1 && a.shape[0] == |f.values|
  {
    match f
    case NpyMatrix(rows, width) => NdArray([|rows|, width])
    case NpyVector(values) => NdArray([|values|])
  }

  /** The chain pipeline's output directory as regular files. */
  function FromChain(saved: map<string, BuildMatrices.NpyFile>): (files: map<string, Entry>)
    ensures files.Keys == saved.Keys
    ensures forall p :: p in saved ==> files[p] == Npy(ShapeOf(saved[p]))
  {
    map p | p in saved :: Npy(ShapeOf(saved[p]))
  }
}
