/** chain_pattern/pipeline.py: the seven handlers linked in their fixed order,
    and what running the chain on a CSV file produces. */
module Pipeline {
  import opened Results
  import opened Text
  import opened Frames
  import opened Handlers
  import NormalizeColumns
  import ParseGenderAge
  import ParseSalary
  import ParseCity
  import EncodeCategorical
  import BuildMatrices

  /** The position of the last '/' in `p`, if any. */
  function LastSlash(p: string): (r: Option<nat>)
    ensures r.Some? ==> r.value < |p| && p[r.value] == '/' && '/' !in p[r.value + 1..]
    ensures r.None? ==> '/' !in p
  {
    if p == [] then None
    else if p[|p| - 1] == '/' then Some(|p| - 1)
    else
      var r := LastSlash(p[..|p| - 1]);
      assert p == p[..|p| - 1] + [p[|p| - 1]];
      if r.Some? then
        assert p[r.value + 1..] == p[..|p| - 1][r.value + 1..] + [p[|p| - 1]];
        r
      else r
  }

  /** `Path(p).parent` for a path already in pathlib's normal form. */
  function ParentDir(p: string): string {
    match LastSlash(p)
    case None => "."
    case Some(k) => if k == 0 then "/" else p[..k]
  }

  /** The parent is the text before the last '/', the root when that '/'
      comes first, and "." when there is no '/'. */
  lemma ParentDirOf(p: string)
    ensures '/' !in p ==> ParentDir(p) == "."
    ensures |p| > 0 && p[0] == '/' && '/' !in p[1..] ==> ParentDir(p) == "/"
    ensures forall k :: 0 < k < |p| && p[k] == '/' && '/' !in p[k + 1..] ==> ParentDir(p) == p[..k]
  {
    LastSlashUnique(p);
  }

  /** A '/' with none after it is the one LastSlash finds. */
  lemma LastSlashUnique(p: string)
    ensures forall k :: 0 <= k < |p| && p[k] == '/' && '/' !in p[k + 1..] ==> LastSlash(p) == Some(k)
  {
    forall k | 0 <= k < |p| && p[k] == '/' && '/' !in p[k + 1..]
      ensures LastSlash(p) == Some(k)
    {
      var r := LastSlash(p);
      assert p[k] in p;
    }
  }

  /** The stages `build_pipeline` links, in order. */
  function PipelineStages(csvPath: string): seq<Stage> {
    [ LoadCsvHandler(csvPath), NormalizeColumnsHandler, ParseGenderAgeHandler, ParseSalaryHandler,
      ParseCityHandler, EncodeCategoricalHandler, BuildMatricesHandler(ParentDir(csvPath)) ]
  }

  /** `build_pipeline`: seven new handlers linked with chained `set_next` calls;
      the loader comes back as the head of the chain. */
  method BuildPipeline(csvPath: string) returns (loader: Handler, ghost chain: seq<Handler>)
    ensures IsChain(loader, chain) && Stages(chain) == PipelineStages(csvPath)
    ensures fresh(loader)
  {
    var outputDir := ParentDir(csvPath);
    loader := new Handler(LoadCsvHandler(csvPath));
    var normalize := new Handler(NormalizeColumnsHandler);
    var genderAge := new Handler(ParseGenderAgeHandler);
    var salary := new Handler(ParseSalaryHandler);
    var city := new Handler(ParseCityHandler);
    var encode := new Handler(EncodeCategoricalHandler);
    var matrices := new Handler(BuildMatricesHandler(outputDir));
    // Each `set_next` returns its argument, the receiver of the next call.
    var h := loader.SetNext(normalize);
    h := normalize.SetNext(genderAge);
    h := genderAge.SetNext(salary);
    h := salary.SetNext(city);
    h := city.SetNext(encode);
    h := encode.SetNext(matrices);
    chain := [loader, normalize, genderAge, salary, city, encode, matrices];
    PipelineChainStages(csvPath, loader, normalize, genderAge, salary, city, encode, matrices);
    SevenLinked(loader, normalize, genderAge, salary, city, encode, matrices);
  }

  lemma PipelineChainStages(csvPath: string, a: Handler, b: Handler, c: Handler, d: Handler, e: Handler, f: Handler, g: Handler)
    requires a.stage == LoadCsvHandler(csvPath) && b.stage == NormalizeColumnsHandler
    requires c.stage == ParseGenderAgeHandler && d.stage == ParseSalaryHandler
    requires e.stage == ParseCityHandler && f.stage == EncodeCategoricalHandler
    requires g.stage == BuildMatricesHandler(ParentDir(csvPath))
    ensures Stages([a, b, c, d, e, f, g]) == PipelineStages(csvPath)
  {
  }

  lemma SevenLinked(a: Handler, b: Handler, c: Handler, d: Handler, e: Handler, f: Handler, g: Handler)
    requires a.next == b && b.next == c && c.next == d && d.next == e && e.next == f && f.next == g
    requires g.next == null
    ensures IsChain(a, [a, b, c, d, e, f, g])
  {
  }

  /** `pd.DataFrame()`, the frame `main` hands to the chain. */
  const EmptyFrame := Table([], map[], 0)

  /** Without the input file the chain stops at the loader, which raises. */
  lemma MissingInput(csvPath: string, files: map<string, Table>, saved: map<string, BuildMatrices.NpyFile>)
    requires Readable(files) && csvPath !in files
    ensures Run(PipelineStages(csvPath), files, State(EmptyFrame, saved)) == Err(FileNotFound(csvPath))
    ensures Executed(PipelineStages(csvPath), files, State(EmptyFrame, saved)) == 1
  {
    RunStep(PipelineStages(csvPath), files, State(EmptyFrame, saved));
  }

  /** The matrices are written next to the input file. */
  lemma OutputNextToInput(dir: string, name: string, file: string)
    requires '/' !in name && dir != [] && dir != "." && dir[|dir| - 1] != '/'
    ensures BuildMatrices.OutputPath(ParentDir(dir + "/" + name), file) == dir + "/" + file
  {
    LastSlashBeforeName(dir, name);
    assert (dir + "/" + name)[..|dir|] == dir;
  }

  /** The last '/' of `dir/name` is the one before `name`. */
  lemma {:induction false} LastSlashBeforeName(dir: string, name: string)
    requires '/' !in name
    ensures LastSlash(dir + "/" + name) == Some(|dir|)
    decreases |name|
  {
    var p := dir + "/" + name;
    if name == [] {
      assert p == dir + "/";
    } else {
      assert p[..|p| - 1] == dir + "/" + name[..|name| - 1];
      assert p[|p| - 1] == name[|name| - 1];
      LastSlashBeforeName(dir, name[..|name| - 1]);
    }
  }


  /** An input named without a directory gets its matrices in the working directory. */
  lemma OutputInWorkingDirectory(name: string, file: string)
    requires '/' !in name
    ensures BuildMatrices.OutputPath(ParentDir(name), file) == file
  {
  }

  /** The labels the stages add or remove, and the categorical list, are all different. */
  /** "зп" is none of the labels the gender and age step adds or drops. */
  lemma RawLabelDiffers()
    ensures ParseSalary.Source !in {ParseGenderAge.Column, "gender", "age"}
  {
    assert ParseSalary.Source[1] == 'п';
  }

  /** "salary" is none of the labels the gender, age and city steps add or drop, nor a categorical one. */
  lemma TargetLabelDiffers()
    ensures ParseSalary.Target != ParseCity.Source && ParseSalary.Target != ParseCity.Target
    ensures ParseSalary.Target !in EncodeCategorical.Categorical
  {
    assert ParseSalary.Target[0] == 's' && ParseSalary.Target[1] == 'a';
    var c := EncodeCategorical.Categorical;
    assert c[0][0] == 'и' && c[1][0] == 'з' && c[2][0] == 'г' && c[3][0] == 'c' && c[4][0] == 'а';
  }

  /** The categorical labels are pairwise different. */
  lemma CategoricalDistinct()
    ensures Distinct(EncodeCategorical.Categorical)
  {
    var c := EncodeCategorical.Categorical;
    assert c[0][0] == 'и' && c[1][0] == 'з' && c[2][0] == 'г' && c[3][0] == 'c' && c[4][0] == 'а';
  }


  /** Stage `k` of a successful run succeeded, and the run went on from its result. */
  lemma StepOk(stages: seq<Stage>, files: map<string, Table>, st: State, k: nat) returns (next: State)
    requires Readable(files) && st.table.Valid() && k < |stages|
    requires Run(stages[k..], files, st).Ok?
    ensures Apply(stages[k], files, st) == Ok(next) && next.table.Valid()
    ensures Run(stages[k..], files, st) == Run(stages[k + 1..], files, next)
  {
    assert stages[k..][1..] == stages[k + 1..];
    RunStep(stages[k..], files, st);
    next := Apply(stages[k], files, st).value;
  }

  /** The loading step of a successful run. */
  lemma LoadOk(csvPath: string, files: map<string, Table>, saved: map<string, BuildMatrices.NpyFile>) returns (st: State)
    requires Readable(files)
    requires Run(PipelineStages(csvPath), files, State(EmptyFrame, saved)).Ok?
    ensures csvPath in files && st == State(files[csvPath], saved)
    ensures Run(PipelineStages(csvPath), files, State(EmptyFrame, saved)) == Run(PipelineStages(csvPath)[1..], files, st)
  {
    var stages := PipelineStages(csvPath);
    assert stages[0..] == stages;
    st := StepOk(stages, files, State(EmptyFrame, saved), 0);
  }

  /** The normalizing step of a successful run. */
  lemma NormalizeOk(csvPath: string, files: map<string, Table>, st: State) returns (t: Table)
    requires Readable(files) && st.table.Valid()
    requires Run(PipelineStages(csvPath)[1..], files, st).Ok?
    ensures NormalizeColumns.Normalize(st.table) == Ok(t) && t.Valid()
    ensures Run(PipelineStages(csvPath)[1..], files, st) == Run(PipelineStages(csvPath)[2..], files, State(t, st.saved))
  {
    var next := StepOk(PipelineStages(csvPath), files, st, 1);
    t := next.table;
  }

  /** The gender and age step of a successful run. */
  lemma GenderAgeOk(csvPath: string, files: map<string, Table>, st: State) returns (t: Table)
    requires Readable(files) && st.table.Valid()
    requires Run(PipelineStages(csvPath)[2..], files, st).Ok?
    ensures ParseGenderAge.Apply(st.table) == Ok(t) && t.Valid()
    ensures Run(PipelineStages(csvPath)[2..], files, st) == Run(PipelineStages(csvPath)[3..], files, State(t, st.saved))
  {
    var next := StepOk(PipelineStages(csvPath), files, st, 2);
    t := next.table;
  }

  /** The salary step of a successful run. */
  lemma SalaryOk(csvPath: string, files: map<string, Table>, st: State) returns (t: Table)
    requires Readable(files) && st.table.Valid()
    requires Run(PipelineStages(csvPath)[3..], files, st).Ok?
    ensures ParseSalary.Apply(st.table) == Ok(t) && t.Valid()
    ensures Run(PipelineStages(csvPath)[3..], files, st) == Run(PipelineStages(csvPath)[4..], files, State(t, st.saved))
  {
    var next := StepOk(PipelineStages(csvPath), files, st, 3);
    t := next.table;
  }

  /** The city step of a successful run. */
  lemma CityOk(csvPath: string, files: map<string, Table>, st: State) returns (t: Table)
    requires Readable(files) && st.table.Valid()
    requires Run(PipelineStages(csvPath)[4..], files, st).Ok?
    ensures ParseCity.Apply(st.table) == Ok(t) && t.Valid()
    ensures Run(PipelineStages(csvPath)[4..], files, st) == Run(PipelineStages(csvPath)[5..], files, State(t, st.saved))
  {
    var next := StepOk(PipelineStages(csvPath), files, st, 4);
    t := next.table;
  }

  /** The encoding step of a successful run. */
  lemma EncodeOk(csvPath: string, files: map<string, Table>, st: State) returns (t: Table)
    requires Readable(files) && st.table.Valid()
    requires Run(PipelineStages(csvPath)[5..], files, st).Ok?
    ensures EncodeCategorical.EncodeAll(st.table, EncodeCategorical.Categorical) == Ok(t) && t.Valid()
    ensures Run(PipelineStages(csvPath)[5..], files, st) == Run(PipelineStages(csvPath)[6..], files, State(t, st.saved))
  {
    var next := StepOk(PipelineStages(csvPath), files, st, 5);
    t := next.table;
  }

  /** The last step of a successful run: the matrices were built and saved. */
  lemma SaveOk(csvPath: string, files: map<string, Table>, st: State) returns (m: BuildMatrices.Matrices)
    requires Readable(files) && st.table.Valid()
    requires Run(PipelineStages(csvPath)[6..], files, st).Ok?
    ensures BuildMatrices.Build(st.table) == Ok(m)
    ensures Run(PipelineStages(csvPath)[6..], files, st)
              == Ok(State(st.table, BuildMatrices.Saved(st.saved, ParentDir(csvPath), m)))
  {
    var stages := PipelineStages(csvPath);
    var next := StepOk(stages, files, st, 6);
    m := BuildMatrices.Build(st.table).value;
    assert stages[7..] == [];
  }

  /** The intermediate frames of a successful run of the pipeline, each the
      result of its stage's function on the one before. */
  lemma Unrolled(csvPath: string, files: map<string, Table>, saved: map<string, BuildMatrices.NpyFile>)
    returns (normalized: Table, split: Table, withSalary: Table, withCity: Table, encoded: Table, m: BuildMatrices.Matrices)
    requires Readable(files)
    requires Run(PipelineStages(csvPath), files, State(EmptyFrame, saved)).Ok?
    ensures csvPath in files && NormalizeColumns.Normalize(files[csvPath]) == Ok(normalized)
    ensures normalized.Valid() && ParseGenderAge.Apply(normalized) == Ok(split)
    ensures split.Valid() && ParseSalary.Apply(split) == Ok(withSalary)
    ensures withSalary.Valid() && ParseCity.Apply(withSalary) == Ok(withCity)
    ensures withCity.Valid() && EncodeCategorical.EncodeAll(withCity, EncodeCategorical.Categorical) == Ok(encoded)
    ensures encoded.Valid() && BuildMatrices.Build(encoded) == Ok(m)
    ensures Run(PipelineStages(csvPath), files, State(EmptyFrame, saved))
              == Ok(State(encoded, BuildMatrices.Saved(saved, ParentDir(csvPath), m)))
  {
    var loaded := LoadOk(csvPath, files, saved);
    normalized := NormalizeOk(csvPath, files, loaded);
    split := GenderAgeOk(csvPath, files, State(normalized, saved));
    withSalary := SalaryOk(csvPath, files, State(split, saved));
    withCity := CityOk(csvPath, files, State(withSalary, saved));
    encoded := EncodeOk(csvPath, files, State(withCity, saved));
    m := SaveOk(csvPath, files, State(encoded, saved));
  }

  /** The "salary" column that reaches the matrix step holds the parsed "зп" texts
      of the normalized frame: the later stages neither drop nor rewrite it. */
  lemma SalaryCarried(normalized: Table, split: Table, withSalary: Table, withCity: Table, encoded: Table)
    requires normalized.Valid() && ParseGenderAge.Apply(normalized) == Ok(split)
    requires split.Valid() && ParseSalary.Apply(split) == Ok(withSalary)
    requires withSalary.Valid() && ParseCity.Apply(withSalary) == Ok(withCity)
    requires withCity.Valid() && EncodeCategorical.EncodeAll(withCity, EncodeCategorical.Categorical) == Ok(encoded)
    ensures ParseSalary.Source in normalized.cols && encoded.rows == normalized.rows
    ensures forall i :: 0 <= i < normalized.rows ==> normalized.cols[ParseSalary.Source][i].Str?
    ensures ParseSalary.Target in encoded.cols
    ensures forall i :: 0 <= i < normalized.rows ==>
              encoded.cols[ParseSalary.Target][i] == Int(ParseSalary.ParseSalary(normalized.cols[ParseSalary.Source][i].s))
  {
    SalaryAfterSplit(normalized, split, withSalary);
    SalaryKept(withSalary, withCity, encoded);
  }

  /** The gender and age step keeps "зп", so the salary step parses the normalized texts. */
  lemma SalaryAfterSplit(normalized: Table, split: Table, withSalary: Table)
    requires normalized.Valid() && ParseGenderAge.Apply(normalized) == Ok(split)
    requires split.Valid() && ParseSalary.Apply(split) == Ok(withSalary)
    ensures ParseSalary.Source in normalized.cols && withSalary.rows == normalized.rows
    ensures forall i :: 0 <= i < normalized.rows ==> normalized.cols[ParseSalary.Source][i].Str?
    ensures ParseSalary.Target in withSalary.cols
    ensures forall i :: 0 <= i < normalized.rows ==>
              withSalary.cols[ParseSalary.Target][i] == Int(ParseSalary.ParseSalary(normalized.cols[ParseSalary.Source][i].s))
  {
    RawKept(normalized, split);
  }

  /** The gender and age step hands "зп" on as it found it. */
  lemma RawKept(normalized: Table, split: Table)
    requires normalized.Valid() && ParseGenderAge.Apply(normalized) == Ok(split)
    requires ParseSalary.Source in split.cols
    ensures ParseSalary.Source in normalized.cols && split.rows == normalized.rows
    ensures split.cols[ParseSalary.Source] == normalized.cols[ParseSalary.Source]
  {
    RawLabelDiffers();
    assert ParseSalary.Source in split.names;
  }


  /** The city and encoding steps leave "salary" as it is. */
  lemma SalaryKept(withSalary: Table, withCity: Table, encoded: Table)
    requires withSalary.Valid() && ParseCity.Apply(withSalary) == Ok(withCity)
    requires withCity.Valid() && EncodeCategorical.EncodeAll(withCity, EncodeCategorical.Categorical) == Ok(encoded)
    requires ParseSalary.Target in withSalary.cols
    ensures ParseSalary.Target in encoded.cols && encoded.rows == withSalary.rows
    ensures encoded.cols[ParseSalary.Target] == withSalary.cols[ParseSalary.Target]
  {
    TargetLabelDiffers();
    CategoricalDistinct();
    EncodeCategorical.EncodeAllSpec(withCity, EncodeCategorical.Categorical);
  }

  /** End to end: after a successful run, y_data.npy next to the CSV file holds,
      row by row, the number parsed from the "зп" text of the normalized input,
      and x_data.npy has one row per input row. */
  lemma TargetIsParsedSalary(csvPath: string, files: map<string, Table>, saved: map<string, BuildMatrices.NpyFile>)
    requires Readable(files)
    requires Run(PipelineStages(csvPath), files, State(EmptyFrame, saved)).Ok?
    ensures csvPath in files && NormalizeColumns.Normalize(files[csvPath]).Ok?
    ensures var t := NormalizeColumns.Normalize(files[csvPath]).value;
            var out := Run(PipelineStages(csvPath), files, State(EmptyFrame, saved)).value.saved;
            var dir := ParentDir(csvPath);
            && ParseSalary.Source in t.cols
            && (forall i :: 0 <= i < t.rows ==> t.cols[ParseSalary.Source][i].Str?)
            && BuildMatrices.OutputPath(dir, BuildMatrices.YFile) in out
            && BuildMatrices.OutputPath(dir, BuildMatrices.XFile) in out
            && out[BuildMatrices.OutputPath(dir, BuildMatrices.YFile)].NpyVector?
            && out[BuildMatrices.OutputPath(dir, BuildMatrices.XFile)].NpyMatrix?
            && |out[BuildMatrices.OutputPath(dir, BuildMatrices.YFile)].values| == t.rows
            && |out[BuildMatrices.OutputPath(dir, BuildMatrices.XFile)].rows| == t.rows
            && forall i :: 0 <= i < t.rows ==>
                 out[BuildMatrices.OutputPath(dir, BuildMatrices.YFile)].values[i]
                   == BuildMatrices.Value(ParseSalary.ParseSalary(t.cols[ParseSalary.Source][i].s) as real)
  {
    var normalized, split, withSalary, withCity, encoded, m := Unrolled(csvPath, files, saved);
    SalaryCarried(normalized, split, withSalary, withCity, encoded);
    BuildMatrices.SavedBoth(saved, ParentDir(csvPath), m);
    forall i | 0 <= i < normalized.rows
      ensures m.y[i] == BuildMatrices.Value(ParseSalary.ParseSalary(normalized.cols[ParseSalary.Source][i].s) as real)
    {
      assert m.y[i] == BuildMatrices.NumberAt(encoded, ParseSalary.Target, i);
    }
  }
}
