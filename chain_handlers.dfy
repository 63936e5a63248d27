/** chain_pattern/handlers/base.py: a chain of responsibility over data
    frames. Each handler runs its own `process` and passes the result to the
    next handler; the first exception ends the chain. The abstract `process`
    of the source is overridden by one subclass per stage; here a handler
    carries its stage and `Process` dispatches on it. */
module Handlers {
  import opened Results
  import opened Frames
  import NormalizeColumns
  import ParseGenderAge
  import ParseSalary
  import ParseCity
  import EncodeCategorical
  import BuildMatrices

  /** The concrete handler classes of the chain, with their constructor arguments. */
  datatype Stage =
    | LoadCsvHandler(path: string)
    | NormalizeColumnsHandler
    | ParseGenderAgeHandler
    | ParseSalaryHandler
    | ParseCityHandler
    | EncodeCategoricalHandler
    | BuildMatricesHandler(outputDir: string)

  /** What the chain works on: the frame being passed along and the arrays saved so far. */
  datatype State = State(table: Table, saved: map<string, BuildMatrices.NpyFile>)

  /** The CSV files `pd.read_csv` can open, already parsed (header labels are unique). */
  ghost predicate Readable(files: map<string, Table>) {
    forall p :: p in files ==> files[p].Valid()
  }

  /** One stage's `process`, on values. */
  function Apply(s: Stage, files: map<string, Table>, st: State): (r: Result<State, Error>)
    requires st.table.Valid() && Readable(files)
    ensures r.Ok? ==> r.value.table.Valid()
    ensures r.Ok? && !s.BuildMatricesHandler? ==> r.value.saved == st.saved
    ensures r.Ok? && !s.LoadCsvHandler? ==> r.value.table.rows == st.table.rows
  {
    match s
    case LoadCsvHandler(p) =>
      if p in files then Ok(State(files[p], st.saved)) else Err(FileNotFound(p))
    case NormalizeColumnsHandler =>
      var t :- NormalizeColumns.Normalize(st.table);
      Ok(State(t, st.saved))
    case ParseGenderAgeHandler =>
      var t :- ParseGenderAge.Apply(st.table);
      Ok(State(t, st.saved))
    case ParseSalaryHandler =>
      var t :- ParseSalary.Apply(st.table);
      Ok(State(t, st.saved))
    case ParseCityHandler =>
      var t :- ParseCity.Apply(st.table);
      Ok(State(t, st.saved))
    case EncodeCategoricalHandler =>
      var t :- EncodeCategorical.EncodeAll(st.table, EncodeCategorical.Categorical);
      Ok(State(t, st.saved))
    case BuildMatricesHandler(dir) =>
      var m :- BuildMatrices.Build(st.table);
      Ok(State(st.table, BuildMatrices.Saved(st.saved, dir, m)))
  }

  /** `handle` on values: every stage in turn, stopping at the first error. */
  function Run(stages: seq<Stage>, files: map<string, Table>, st: State): (r: Result<State, Error>)
    requires st.table.Valid() && Readable(files)
    ensures r.Ok? ==> r.value.table.Valid()
    decreases |stages|
  {
    if stages == [] then Ok(st)
    else
      var next :- Apply(stages[0], files, st);
      Run(stages[1..], files, next)
  }

  /** How many `process` calls `handle` makes: one per stage up to and including the first that fails. */
  function Executed(stages: seq<Stage>, files: map<string, Table>, st: State): (n: nat)
    requires st.table.Valid() && Readable(files)
    ensures n <= |stages|
    ensures Run(stages, files, st).Ok? ==> n == |stages|
    decreases |stages|
  {
    if stages == [] then 0
    else match Apply(stages[0], files, st)
      case Err(_) => 1
      case Ok(next) => 1 + Executed(stages[1..], files, next)
  }

  /** One step of `handle`: the first stage, then the rest on its result. */
  lemma RunStep(stages: seq<Stage>, files: map<string, Table>, st: State)
    requires stages != [] && st.table.Valid() && Readable(files)
    ensures Apply(stages[0], files, st).Err? ==>
              && Run(stages, files, st) == Err(Apply(stages[0], files, st).error)
              && Executed(stages, files, st) == 1
    ensures Apply(stages[0], files, st).Ok? ==>
              && Run(stages, files, st) == Run(stages[1..], files, Apply(stages[0], files, st).value)
              && Executed(stages, files, st) == 1 + Executed(stages[1..], files, Apply(stages[0], files, st).value)
  {
  }

  /** Running two lists of stages one after the other is running their concatenation. */
  lemma {:induction false} RunAppend(a: seq<Stage>, b: seq<Stage>, files: map<string, Table>, st: State)
    requires st.table.Valid() && Readable(files)
    ensures Run(a + b, files, st) == match Run(a, files, st)
                                     case Err(e) => Err(e)
                                     case Ok(mid) => Run(b, files, mid)
    decreases |a|
  {
    if a == [] {
      assert a + b == b;
    } else {
      assert (a + b)[0] == a[0] && (a + b)[1..] == a[1..] + b;
      match Apply(a[0], files, st)
      case Err(_) =>
      case Ok(next) => RunAppend(a[1..], b, files, next);
    }
  }

  /** The handler objects reached from the frame's point of view: `process` hands
      back the frame it was given or a new one. */
  function Returned(r: Result<DataFrame, Error>): set<DataFrame> {
    if r.Ok? then {r.value} else {}
  }

  /** How a `process` or `handle` call ended, against the value-level outcome `expected`. */
  ghost predicate Outcome(r: Result<DataFrame, Error>, store: BuildMatrices.NpyStore, expected: Result<State, Error>)
    reads store, Returned(r)
  {
    match expected
    case Ok(st) => r.Ok? && r.value.Valid() && r.value.Snapshot() == st.table && store.files == st.saved
    case Err(e) => r == Err(e)
  }

  /** `chain` lists the handlers reached from `h` through `next`, ending at one without a successor. */
  ghost predicate IsChain(h: Handler, chain: seq<Handler>)
    reads chain
  {
    && chain != [] && chain[0] == h
    && (forall i :: 0 <= i < |chain| - 1 ==> chain[i].next == chain[i + 1])
    && chain[|chain| - 1].next == null
  }

  /** The stages of the handlers of a chain, in order. */
  function Stages(chain: seq<Handler>): (s: seq<Stage>)
    ensures |s| == |chain| && forall i :: 0 <= i < |chain| ==> s[i] == chain[i].stage
  {
    seq(|chain|, i requires 0 <= i < |chain| => chain[i].stage)
  }

  class Handler {
    const stage: Stage
    var next: Handler?

    /** `__init__`: a handler starts without a successor. */
    constructor (s: Stage)
      ensures stage == s && next == null
    {
      stage := s;
      next := null;
    }

    /** `set_next`: links `h` after this handler and returns it, so calls can be chained. */
    method SetNext(h: Handler) returns (r: Handler)
      modifies this
      ensures next == h && r == h
    {
      next := h;
      r := h;
    }

    /** The overriding `process` of this handler's class. */
    method Process(df: DataFrame, files: map<string, Table>, store: BuildMatrices.NpyStore)
      returns (r: Result<DataFrame, Error>)
      requires df.Valid() && Readable(files)
      modifies df, store
      ensures r.Ok? ==> r.value == df || fresh(r.value)
      ensures Outcome(r, store, Apply(stage, files, State(old(df.Snapshot()), old(store.files))))
    {
      match stage
      case LoadCsvHandler(p) =>
        if p !in files {
          return Err(FileNotFound(p));
        }
        var loaded := new DataFrame(files[p]);
        r := Ok(loaded);
      case NormalizeColumnsHandler =>
        r := NormalizeColumns.Process(df);
      case ParseGenderAgeHandler =>
        r := ParseGenderAge.Process(df);
      case ParseSalaryHandler =>
        r := ParseSalary.Process(df);
      case ParseCityHandler =>
        r := ParseCity.Process(df);
      case EncodeCategoricalHandler =>
        r := EncodeCategorical.Process(df);
      case BuildMatricesHandler(dir) =>
        r := BuildMatrices.Process(df, dir, store);
    }

    /** `handle`: this handler's `process`, then the rest of the chain on its result. */
    method Handle(df: DataFrame, files: map<string, Table>, store: BuildMatrices.NpyStore, ghost chain: seq<Handler>)
      returns (r: Result<DataFrame, Error>, ghost calls: nat)
      requires IsChain(this, chain)
      requires df.Valid() && Readable(files)
      modifies df, store
      ensures Outcome(r, store, Run(Stages(chain), files, State(old(df.Snapshot()), old(store.files))))
      ensures calls == Executed(Stages(chain), files, State(old(df.Snapshot()), old(store.files)))
      decreases |chain|
    {
      ghost var start := State(df.Snapshot(), store.files);
      ghost var stages := Stages(chain);
      var processed := Process(df, files, store);
      RunStep(stages, files, start);
      if processed.Err? {
        return processed, 1;
      }
      var frame := processed.value;
      assert Stages(chain[1..]) == stages[1..];
      if next != null {
        assert IsChain(next, chain[1..]);
        ghost var rest;
        r, rest := next.Handle(frame, files, store, chain[1..]);
        calls := 1 + rest;
      } else {
        assert chain[0].next == null;
        assert stages[1..] == [];
        r, calls := processed, 1;
      }
    }
  }
}
