/** app/features/labeling.py: the junior/middle/senior target of the
    classifier, taken from the job title when it names a level and from the
    years of experience otherwise. */
module Labeling {
  import opened Results
  import opened Text
  import opened Frames
  import opened AppParsers

  const JuniorMaxYears: real := 2.0
  const SeniorMinYears: real := 6.0

  datatype Level = Junior | Middle | Senior {
    /** The text stored in the `level` column. */
    function Name(): string {
      match this
      case Junior => "junior"
      case Middle => "middle"
      case Senior => "senior"
    }

    /** Position in the order junior < middle < senior. */
    function Rank(): nat {
      match this
      case Junior => 0
      case Middle => 1
      case Senior => 2
    }
  }

  /** The words that mark a junior title, searched for first. */
  const JuniorWords: seq<string> := ["junior", "джуниор", "стажёр", "стажер", "intern"]
  /** The words that mark a senior title. */
  const SeniorWords: seq<string> := ["senior", "старший", "lead", "руководитель", "начальник"]

  /** `assign_level_from_title`: none for a missing title, and never middle. */
  function LevelFromTitle(title: Cell): (l: Option<Level>)
    ensures SearchText(title).None? ==> l.None?
    ensures l != Some(Middle)
  {
    match SearchText(title)
    case None => None
    case Some(text) =>
      var s := Lower(text);
      if ContainsAny(s, JuniorWords) then Some(Junior)
      else if ContainsAny(s, SeniorWords) then Some(Senior)
      else None
  }

  /** What a title says: junior when its lower-cased text contains a junior
      word, else senior when it contains a senior word, else nothing. */
  lemma TitleLevel(title: string)
    ensures var s := Lower(title);
            && (LevelFromTitle(Str(title)) == Some(Junior) <==>
                  exists k :: 0 <= k < |JuniorWords| && Occurs(s, JuniorWords[k]))
            && (LevelFromTitle(Str(title)) == Some(Senior) <==>
                  && (forall k :: 0 <= k < |JuniorWords| ==> !Occurs(s, JuniorWords[k]))
                  && exists k :: 0 <= k < |SeniorWords| && Occurs(s, SeniorWords[k]))
  {
    var s := Lower(title);
    assert ContainsAny(s, JuniorWords) <==> exists k :: 0 <= k < |JuniorWords| && Occurs(s, JuniorWords[k]);
    assert ContainsAny(s, SeniorWords) <==> exists k :: 0 <= k < |SeniorWords| && Occurs(s, SeniorWords[k]);
  }

  /** `assign_level_from_experience`: a negative (unknown) experience is middle;
      otherwise junior up to two years, senior from six, middle between. */
  function LevelFromExperience(years: real): (l: Level)
    ensures years < 0.0 ==> l == Middle
    ensures years >= 0.0 ==> (l == Junior <==> years <= JuniorMaxYears)
    ensures years >= 0.0 ==> (l == Senior <==> years >= SeniorMinYears)
  {
    if years < 0.0 then Middle
    else if years <= JuniorMaxYears then Junior
    else if years >= SeniorMinYears then Senior
    else Middle
  }

  /** More experience never gives a lower level. */
  lemma ExperienceMonotone(a: real, b: real)
    requires 0.0 <= a <= b
    ensures LevelFromExperience(a).Rank() <= LevelFromExperience(b).Rank()
  {
  }

  /** An experience the parser could not read is middle. */
  lemma UnknownExperienceIsMiddle(value: Cell)
    requires value.Missing?
    ensures LevelFromExperience(ExperienceYears(value)) == Middle
  {
  }

  /** The level of one row: the title's when it names one, else the experience's. */
  function RowLevel(title: Cell, years: real): (l: Level)
    ensures LevelFromTitle(title).Some? ==> l == LevelFromTitle(title).value
    ensures LevelFromTitle(title).None? ==> l == LevelFromExperience(years)
  {
    match LevelFromTitle(title)
    case Some(l) => l
    case None => LevelFromExperience(years)
  }

  /** A junior word in the title makes the row junior, whatever the experience
      and whatever senior word the title also holds. */
  lemma JuniorTitleWins(title: string, years: real, k: nat)
    requires k < |JuniorWords| && Occurs(Lower(title), JuniorWords[k])
    ensures RowLevel(Str(title), years) == Junior
  {
    TitleLevel(title);
  }

  /** A senior word and no junior word in the title makes the row senior,
      whatever the experience. */
  lemma SeniorTitleWins(title: string, years: real, k: nat)
    requires k < |SeniorWords| && Occurs(Lower(title), SeniorWords[k])
    requires forall j :: 0 <= j < |JuniorWords| ==> !Occurs(Lower(title), JuniorWords[j])
    ensures RowLevel(Str(title), years) == Senior
  {
    TitleLevel(title);
  }

  /** The four columns `create_target_variable` looks up, in call order. */
  datatype Sources = Sources(job: string, exp: string, salary: string, age: string)

  function FindSources(names: seq<string>): (r: Result<Sources, Error>)
    ensures r.Ok? <==> && FindColumn(names, JobLabels).Ok? && FindColumn(names, ExperienceLabels).Ok?
                       && FindColumn(names, SalaryLabels).Ok? && FindColumn(names, AgeLabels).Ok?
    ensures r.Ok? ==> r.value == Sources(FindColumn(names, JobLabels).value, FindColumn(names, ExperienceLabels).value,
                                         FindColumn(names, SalaryLabels).value, FindColumn(names, AgeLabels).value)
    ensures r.Ok? ==> r.value.job in names && r.value.exp in names && r.value.salary in names && r.value.age in names
    ensures r.Err? ==> r.error == IndexError(3)
  {
    var job :- FindColumn(names, JobLabels);
    var exp :- FindColumn(names, ExperienceLabels);
    var salary :- FindColumn(names, SalaryLabels);
    var age :- FindColumn(names, AgeLabels);
    Ok(Sources(job, exp, salary, age))
  }

  /** `df[n].apply(parse_salary)`: fails on a float cell, whose text is not modelled. */
  function SalaryColumn(col: seq<Cell>, n: string): (r: Result<seq<Cell>, Error>)
    ensures r.Ok? <==> forall i :: 0 <= i < |col| ==> !col[i].Real?
    ensures r.Ok? ==> |r.value| == |col| && forall i :: 0 <= i < |col| ==> r.value[i] == Int(Salary(col[i]).value)
    ensures r.Err? ==> r.error == FloatText(n)
  {
    if forall i :: 0 <= i < |col| ==> !col[i].Real? then
      Ok(seq(|col|, i requires 0 <= i < |col| => Int(Salary(col[i]).value)))
    else Err(FloatText(n))
  }

  /** `df[n].apply(parse_age)`. */
  function AgeColumn(col: seq<Cell>): (r: seq<Cell>)
    ensures |r| == |col| && forall i :: 0 <= i < |col| ==> r[i] == Int(Age(col[i])) && r[i].i >= -1
  {
    seq(|col|, i requires 0 <= i < |col| => Int(Age(col[i])))
  }

  /** `df[n].apply(parse_experience_years)`, as numbers. */
  function ExperienceColumn(col: seq<Cell>): (r: seq<real>)
    ensures |r| == |col| && forall i :: 0 <= i < |col| ==> r[i] == ExperienceYears(col[i])
  {
    seq(|col|, i requires 0 <= i < |col| => ExperienceYears(col[i]))
  }

  /** The copy with the three parsed columns, and the experience of each row. */
  datatype Parsed = Parsed(table: Table, years: seq<real>)

  const SalaryLabel := "_salary"
  const AgeLabel := "_age"
  const ExperienceLabel := "_exp_years"
  const LevelLabel := "level"

  /** The three `apply` calls, each reading its column from the copy as it stands. */
  function ParseColumns(t: Table, src: Sources): (r: Result<Parsed, Error>)
    requires t.Valid() && src.job in t.cols && src.exp in t.cols && src.salary in t.cols && src.age in t.cols
    ensures r.Ok? <==> forall i :: 0 <= i < t.rows ==> !t.cols[src.salary][i].Real?
    ensures r.Err? ==> r.error == FloatText(src.salary)
    ensures r.Ok? ==> && r.value.table.Valid() && r.value.table.rows == t.rows && |r.value.years| == t.rows
                      && src.job in r.value.table.cols
  {
    var salaries :- SalaryColumn(t.cols[src.salary], src.salary);
    var t1 := t.Set(SalaryLabel, salaries);
    var t2 := t1.Set(AgeLabel, AgeColumn(t1.cols[src.age]));
    var years := ExperienceColumn(t2.cols[src.exp]);
    Ok(Parsed(t2.Set(ExperienceLabel, RealCells(years)), years))
  }

  function LevelCells(titles: seq<Cell>, years: seq<real>): (c: seq<Cell>)
    requires |titles| == |years|
    ensures |c| == |titles| && forall i :: 0 <= i < |titles| ==> c[i] == Str(RowLevel(titles[i], years[i]).Name())
  {
    seq(|titles|, i requires 0 <= i < |titles| => Str(RowLevel(titles[i], years[i]).Name()))
  }

  /** What `create_target_variable` returns: the copy with `_salary`, `_age`,
      `_exp_years` and `level`; only a column lookup past the fourth column or
      a float salary makes it fail, and every column it does not write keeps
      its cells. */
  function TargetTable(t: Table): (r: Result<Table, Error>)
    requires t.Valid()
    ensures r.Err? ==> r.error == if FindSources(t.names).Err? then IndexError(3)
                                  else FloatText(FindSources(t.names).value.salary)
    ensures r.Ok? <==> && FindSources(t.names).Ok?
                       && forall i :: 0 <= i < t.rows ==> !t.cols[FindSources(t.names).value.salary][i].Real?
    ensures r.Ok? ==> SalaryLabel in r.value.cols && AgeLabel in r.value.cols
                      && ExperienceLabel in r.value.cols && LevelLabel in r.value.cols
    ensures r.Ok? ==> && r.value.Valid() && r.value.rows == t.rows
                      && (forall n :: n in t.names ==> n in r.value.names)
                      && (forall n :: n in r.value.names <==>
                            n in t.names || n in [SalaryLabel, AgeLabel, ExperienceLabel, LevelLabel])
                      && (forall n :: n in t.cols && n !in [SalaryLabel, AgeLabel, ExperienceLabel, LevelLabel] ==>
                            r.value.cols[n] == t.cols[n])
  {
    var src :- FindSources(t.names);
    var p :- ParseColumns(t, src);
    Ok(p.table.Set(LevelLabel, LevelCells(p.table.cols[src.job], p.years)))
  }

  /** The row loop of `create_target_variable`: one level appended per row,
      in row order, the title's when it names one and the experience's otherwise. */
  method RowLevels(titles: seq<Cell>, years: seq<real>) returns (levels: seq<Cell>)
    requires |titles| == |years|
    ensures levels == LevelCells(titles, years)
  {
    levels := [];
    for i := 0 to |titles|
      invariant |levels| == i
      invariant forall k :: 0 <= k < i ==> levels[k] == Str(RowLevel(titles[k], years[k]).Name())
    {
      var fromTitle := LevelFromTitle(titles[i]);
      var fromExperience := LevelFromExperience(years[i]);
      var level := if fromTitle.Some? then fromTitle.value else fromExperience;
      levels := levels + [Str(level.Name())];
    }
  }

  /** `create_target_variable`: the parsed columns, the row loop, then the `level` column. */
  method CreateTargetVariable(t: Table) returns (r: Result<Table, Error>)
    requires t.Valid()
    ensures r == TargetTable(t)
  {
    var src :- FindSources(t.names);
    var p :- ParseColumns(t, src);
    var levels := RowLevels(p.table.cols[src.job], p.years);
    r := Ok(p.table.Set(LevelLabel, levels));
  }

  /** None of the columns the function writes is there beforehand. */
  predicate FreshLabels(t: Table) {
    SalaryLabel !in t.cols && AgeLabel !in t.cols && ExperienceLabel !in t.cols && LevelLabel !in t.cols
  }

  /** On a table without the written columns: `_salary`, `_age` and
      `_exp_years` parse the salary, age and experience columns row by row, and
      `level` takes the title's level where there is one and the experience's
      otherwise. */
  lemma TargetColumns(t: Table)
    requires t.Valid() && FreshLabels(t) && TargetTable(t).Ok?
    ensures var src := FindSources(t.names).value;
            var r := TargetTable(t).value;
            var years := ExperienceColumn(t.cols[src.exp]);
            && SalaryColumn(t.cols[src.salary], src.salary).Ok?
            && r.cols[SalaryLabel] == SalaryColumn(t.cols[src.salary], src.salary).value
            && r.cols[AgeLabel] == AgeColumn(t.cols[src.age])
            && r.cols[ExperienceLabel] == RealCells(years)
            && r.cols[LevelLabel] == LevelCells(t.cols[src.job], years)
  {
    var src := FindSources(t.names).value;
    var p := ParseColumns(t, src).value;
    ParsedColumns(t, src);
    assert TargetTable(t).value == p.table.Set(LevelLabel, LevelCells(p.table.cols[src.job], p.years));
  }

  /** The three parsed columns, the job column left as it was. */
  lemma ParsedColumns(t: Table, src: Sources)
    requires t.Valid() && FreshLabels(t)
    requires src.job in t.cols && src.exp in t.cols && src.salary in t.cols && src.age in t.cols
    requires ParseColumns(t, src).Ok?
    ensures var p := ParseColumns(t, src).value;
            && SalaryColumn(t.cols[src.salary], src.salary).Ok?
            && p.table.cols[SalaryLabel] == SalaryColumn(t.cols[src.salary], src.salary).value
            && p.table.cols[AgeLabel] == AgeColumn(t.cols[src.age])
            && p.years == ExperienceColumn(t.cols[src.exp])
            && p.table.cols[ExperienceLabel] == RealCells(p.years)
            && p.table.cols[src.job] == t.cols[src.job]
  {
  }
}
