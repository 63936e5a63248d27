/** app/features/engineering.py: the features of the classifier, added to a
    copy of the labelled table: salary, age and experience with their unknown
    values filled in, the city and its code, and the experience text. */
module Engineering {
  import opened Results
  import opened Text
  import opened Frames
  import opened LabelEncoding
  import opened AppParsers
  import Labeling
  import ParseCity

  const SalaryLabel := "salary"
  const AgeLabel := "age"
  const ExperienceLabel := "experience_years"
  const CityLabel := "city"
  const CityCodeLabel := "city_encoded"
  const TextLabel := "experience_text"

  /** The city of a row whose city text is empty. */
  const NoCity := "не указан"

  /** The unknown value of the age and experience parsers: -1 or -1.0, which
      compare equal in pandas. */
  predicate IsSentinel(c: Cell) {
    c == Int(-1) || c == Real(-1.0)
  }

  /** `col.replace(-1, median)`: each sentinel becomes the median, every other
      cell is kept. */
  function FillSentinels(col: seq<Cell>, median: real): (r: seq<Cell>)
    ensures |r| == |col|
    ensures forall i :: 0 <= i < |col| && !IsSentinel(col[i]) ==> r[i] == col[i]
    ensures forall i :: 0 <= i < |col| && IsSentinel(col[i]) ==> r[i] == Real(median)
  {
    seq(|col|, i requires 0 <= i < |col| => if IsSentinel(col[i]) then Real(median) else col[i])
  }

  /** Unless the median is itself the sentinel, none is left after filling. */
  lemma NoSentinelLeft(col: seq<Cell>, median: real)
    requires median != -1.0
    ensures forall i :: 0 <= i < |col| ==> !IsSentinel(FillSentinels(col, median)[i])
  {
  }

  /** Filling twice changes nothing more, and filling a column without a
      sentinel changes nothing. */
  lemma FillSentinelsIdempotent(col: seq<Cell>, median: real)
    requires median != -1.0
    ensures FillSentinels(FillSentinels(col, median), median) == FillSentinels(col, median)
    ensures (forall i :: 0 <= i < |col| ==> !IsSentinel(col[i])) ==> FillSentinels(col, median) == col
  {
    NoSentinelLeft(col, median);
  }

  /** A column without a float cell, the only cell whose text is not modelled. */
  predicate NoFloats(col: seq<Cell>) {
    forall i :: 0 <= i < |col| ==> !col[i].Real?
  }

  /** `fillna("").astype(str)` on one cell: a missing cell is empty; a float's
      text is not modelled. */
  function FilledText(c: Cell, n: string): (r: Result<string, Error>)
    ensures r.Err? <==> c.Real?
    ensures r.Err? ==> r.error == FloatText(n)
    ensures c.Missing? ==> r == Ok("")
    ensures c.Str? || c.Int? ==> r == Ok(CellText(c).value)
  {
    match c
    case Missing => Ok("")
    case Real(_) => Err(FloatText(n))
    case _ => Ok(CellText(c).value)
  }

  function FilledTexts(col: seq<Cell>, n: string): (r: Result<seq<string>, Error>)
    ensures r.Ok? <==> forall i :: 0 <= i < |col| ==> !col[i].Real?
    ensures r.Err? ==> r.error == FloatText(n)
    ensures r.Ok? ==> |r.value| == |col| && forall i :: 0 <= i < |col| ==> FilledText(col[i], n) == Ok(r.value[i])
  {
    if forall i :: 0 <= i < |col| ==> !col[i].Real? then
      Ok(seq(|col|, i requires 0 <= i < |col| => FilledText(col[i], n).value))
    else Err(FloatText(n))
  }

  /** `.str.split(",").str[0].str.strip().replace("", "не указан")`: the first
      comma-separated part, stripped, or "не указан" when that is empty. A
      city is never empty and never holds a comma. */
  function City(text: string): (c: string)
    ensures c != [] && ',' !in c
    ensures ParseCity.ParseCity(text) != [] ==> c == ParseCity.ParseCity(text)
    ensures ParseCity.ParseCity(text) == [] ==> c == NoCity
  {
    var c := ParseCity.ParseCity(text);
    if c == [] then
      NoCityText();
      NoCity
    else c
  }

  lemma NoCityText()
    ensures NoCity != [] && ',' !in NoCity
  {
  }

  function Cities(texts: seq<string>): (c: seq<string>)
    ensures |c| == |texts| && forall i :: 0 <= i < |texts| ==> c[i] == City(texts[i])
  {
    seq(|texts|, i requires 0 <= i < |texts| => City(texts[i]))
  }

  /** `(exp[:1500] + " " + job).strip()`. */
  function ExperienceText(exp: string, job: string): (r: string)
    ensures |r| <= |Take(exp, 1500)| + 1 + |job|
    ensures r == [] || (!IsSpace(r[0]) && !IsSpace(r[|r| - 1]))
  {
    Strip(Take(exp, 1500) + " " + job)
  }

  /** A job title that neither starts nor ends with whitespace is the end of
      the experience text, whatever the experience text is. */
  lemma ExperienceTextEndsWithTitle(exp: string, job: string)
    requires job != [] && !IsSpace(job[0]) && !IsSpace(job[|job| - 1])
    ensures var r := ExperienceText(exp, job);
            |r| >= |job| && r[|r| - |job|..] == job
  {
    StripKeepsEnd(Take(exp, 1500) + " ", job);
  }

  /** Stripping `x + y` keeps all of `y` when `y` starts and ends with a
      non-whitespace character. */
  lemma StripKeepsEnd(x: string, y: string)
    requires y != [] && !IsSpace(y[0]) && !IsSpace(y[|y| - 1])
    ensures var r := Strip(x + y);
            |r| >= |y| && r[|r| - |y|..] == y
  {
    var s := x + y;
    var r := Strip(s);
    var i, j :| 0 <= i <= j <= |s| && r == s[i..j]
                && (forall k :: 0 <= k < i ==> IsSpace(s[k]))
                && (forall k :: j <= k < |s| ==> IsSpace(s[k]));
    assert s[|s| - 1] == y[|y| - 1];
    assert s[|x|] == y[0];
    assert j == |s|;
    assert i <= |x|;
    assert r[|r| - |y|..] == s[|x|..] == y;
  }

  function ExperienceTexts(exps: seq<string>, jobs: seq<string>): (r: seq<string>)
    requires |exps| == |jobs|
    ensures |r| == |exps| && forall i :: 0 <= i < |exps| ==> r[i] == ExperienceText(exps[i], jobs[i])
  {
    seq(|exps|, i requires 0 <= i < |exps| => ExperienceText(exps[i], jobs[i]))
  }

  /** The first three assignments: `salary` copies `_salary`; `age` and `experience_years`
      are `_age` and `_exp_years` with their sentinels replaced by the medians. */
  function Numbers(t: Table, ageMedian: real, expMedian: real): (r: Result<Table, Error>)
    requires t.Valid()
    ensures r.Err? <==> Labeling.SalaryLabel !in t.cols || Labeling.AgeLabel !in t.cols
                        || Labeling.ExperienceLabel !in t.cols
    ensures r.Err? ==> r.error == if Labeling.SalaryLabel !in t.cols then KeyError(Labeling.SalaryLabel)
                                  else if Labeling.AgeLabel !in t.cols then KeyError(Labeling.AgeLabel)
                                  else KeyError(Labeling.ExperienceLabel)
    ensures r.Ok? ==> && r.value.Valid() && r.value.rows == t.rows
                      && r.value.names == Added(Added(Added(t.names, SalaryLabel), AgeLabel), ExperienceLabel)
                      && r.value.cols == t.cols[SalaryLabel := t.cols[Labeling.SalaryLabel]]
                                               [AgeLabel := FillSentinels(t.cols[Labeling.AgeLabel], ageMedian)]
                                               [ExperienceLabel := FillSentinels(t.cols[Labeling.ExperienceLabel], expMedian)]
  {
    var salaries :- Column(t, Labeling.SalaryLabel);
    var t1 := t.Set(SalaryLabel, salaries);
    var ages :- Column(t1, Labeling.AgeLabel);
    var t2 := t1.Set(AgeLabel, FillSentinels(ages, ageMedian));
    var years :- Column(t2, Labeling.ExperienceLabel);
    Ok(t2.Set(ExperienceLabel, FillSentinels(years, expMedian)))
  }

  /** `city` and `city_encoded`: the city column found by label, its cities, and their codes. */
  function CityColumns(t: Table): (r: Result<Table, Error>)
    requires t.Valid()
    ensures r.Err? ==> r.error == if FindColumn(t.names, CityLabels).Err? then IndexError(3)
                                  else FloatText(FindColumn(t.names, CityLabels).value)
    ensures r.Ok? <==> && FindColumn(t.names, CityLabels).Ok?
                       && NoFloats(t.cols[FindColumn(t.names, CityLabels).value])
    ensures r.Ok? ==> && r.value.Valid() && r.value.rows == t.rows
                      && r.value.names == Added(Added(t.names, CityLabel), CityCodeLabel)
                      && (forall n :: n in t.cols && n != CityLabel && n != CityCodeLabel ==> r.value.cols[n] == t.cols[n])
                      && var n := FindColumn(t.names, CityLabels).value;
                         && FilledTexts(t.cols[n], n).Ok?
                         && var cities := Cities(FilledTexts(t.cols[n], n).value);
                            && r.value.cols[CityLabel] == StrCells(cities)
                            && r.value.cols[CityCodeLabel] == IntCells(Encode(cities))
  {
    var n :- FindColumn(t.names, CityLabels);
    var texts :- FilledTexts(t.cols[n], n);
    var cities := Cities(texts);
    var t1 := t.Set(CityLabel, StrCells(cities));
    Ok(t1.Set(CityCodeLabel, IntCells(Encode(cities))))
  }

  /** `experience_text`: the experience and job columns found by label, joined. */
  function TextColumn(t: Table): (r: Result<Table, Error>)
    requires t.Valid()
    ensures r.Ok? <==> && FindColumn(t.names, ExperienceLabels).Ok? && FindColumn(t.names, JobLabels).Ok?
                       && NoFloats(t.cols[FindColumn(t.names, ExperienceLabels).value])
                       && NoFloats(t.cols[FindColumn(t.names, JobLabels).value])
    ensures r.Err? ==> r.error == if FindColumn(t.names, ExperienceLabels).Err? || FindColumn(t.names, JobLabels).Err?
                                  then IndexError(3)
                                  else if !NoFloats(t.cols[FindColumn(t.names, ExperienceLabels).value])
                                  then FloatText(FindColumn(t.names, ExperienceLabels).value)
                                  else FloatText(FindColumn(t.names, JobLabels).value)
    ensures r.Ok? ==> && r.value.Valid() && r.value.rows == t.rows
                      && r.value.names == Added(t.names, TextLabel)
                      && (forall n :: n in t.cols && n != TextLabel ==> r.value.cols[n] == t.cols[n])
                      && var e := FindColumn(t.names, ExperienceLabels).value;
                         var j := FindColumn(t.names, JobLabels).value;
                         && FilledTexts(t.cols[e], e).Ok? && FilledTexts(t.cols[j], j).Ok?
                         && r.value.cols[TextLabel] ==
                              StrCells(ExperienceTexts(FilledTexts(t.cols[e], e).value, FilledTexts(t.cols[j], j).value))
  {
    var e :- FindColumn(t.names, ExperienceLabels);
    var j :- FindColumn(t.names, JobLabels);
    var exps :- FilledTexts(t.cols[e], e);
    var jobs :- FilledTexts(t.cols[j], j);
    Ok(t.Set(TextLabel, StrCells(ExperienceTexts(exps, jobs))))
  }

  /** `prepare_features` with the two medians given: the numbers, the city
      columns and the experience text, each step on the copy as the previous
      one left it. */
  function PrepareFeatures(t: Table, ageMedian: real, expMedian: real): (r: Result<Table, Error>)
    requires t.Valid()
    ensures r.Ok? <==> && Numbers(t, ageMedian, expMedian).Ok?
                       && CityColumns(Numbers(t, ageMedian, expMedian).value).Ok?
                       && TextColumn(CityColumns(Numbers(t, ageMedian, expMedian).value).value).Ok?
    ensures r.Err? ==> r.error == if Numbers(t, ageMedian, expMedian).Err? then Numbers(t, ageMedian, expMedian).error
                                  else if CityColumns(Numbers(t, ageMedian, expMedian).value).Err?
                                  then CityColumns(Numbers(t, ageMedian, expMedian).value).error
                                  else TextColumn(CityColumns(Numbers(t, ageMedian, expMedian).value).value).error
    ensures r.Ok? ==> && r.value.Valid() && r.value.rows == t.rows
                      && (forall n :: n in t.names ==> n in r.value.names)
                      && forall n :: n in t.cols && n !in [SalaryLabel, AgeLabel, ExperienceLabel, CityLabel, CityCodeLabel, TextLabel] ==>
                           r.value.cols[n] == t.cols[n]
  {
    var numbers :- Numbers(t, ageMedian, expMedian);
    var cities :- CityColumns(numbers);
    TextColumn(cities)
  }

  /** The labels labelling leaves, the city, experience and job columns found
      by a matching label, and none of those a float column: then
      `prepare_features` succeeds. The labels it writes are ASCII and match no
      Cyrillic fragment, so the columns it reads are never ones it wrote. */
  lemma PrepareSucceeds(t: Table, ageMedian: real, expMedian: real)
    requires t.Valid()
    requires Labeling.SalaryLabel in t.cols && Labeling.AgeLabel in t.cols && Labeling.ExperienceLabel in t.cols
    requires FindColumn(t.names, CityLabels).Ok? && LabelMatches(FindColumn(t.names, CityLabels).value, CityLabels)
    requires FindColumn(t.names, ExperienceLabels).Ok?
             && LabelMatches(FindColumn(t.names, ExperienceLabels).value, ExperienceLabels)
    requires FindColumn(t.names, JobLabels).Ok? && LabelMatches(FindColumn(t.names, JobLabels).value, JobLabels)
    requires NoFloats(t.cols[FindColumn(t.names, CityLabels).value])
    requires NoFloats(t.cols[FindColumn(t.names, ExperienceLabels).value])
    requires NoFloats(t.cols[FindColumn(t.names, JobLabels).value])
    ensures PrepareFeatures(t, ageMedian, expMedian).Ok?
  {
    var numbers := NumbersKeep(t, ageMedian, expMedian);
    var withCities := CitiesFound(t, numbers);
    TextFound(t, withCities);
  }

  /** The numbers step succeeds, only appends labels, and keeps every column
      found by a Cyrillic fragment. */
  lemma NumbersKeep(t: Table, ageMedian: real, expMedian: real) returns (numbers: Table)
    requires t.Valid()
    requires Labeling.SalaryLabel in t.cols && Labeling.AgeLabel in t.cols && Labeling.ExperienceLabel in t.cols
    ensures Numbers(t, ageMedian, expMedian) == Ok(numbers) && numbers.Valid() && numbers.rows == t.rows
    ensures |t.names| <= |numbers.names| && numbers.names[..|t.names|] == t.names
    ensures forall n :: n in t.cols && n !in [SalaryLabel, AgeLabel, ExperienceLabel] ==> numbers.cols[n] == t.cols[n]
  {
    numbers := Numbers(t, ageMedian, expMedian).value;
    AddedThriceExtends(t.names, SalaryLabel, AgeLabel, ExperienceLabel);
    UpdatedThriceKeeps(t.cols, SalaryLabel, t.cols[Labeling.SalaryLabel],
                       AgeLabel, FillSentinels(t.cols[Labeling.AgeLabel], ageMedian),
                       ExperienceLabel, FillSentinels(t.cols[Labeling.ExperienceLabel], expMedian));
  }

  lemma AddedThriceExtends(names: seq<string>, a: string, b: string, c: string)
    ensures var r := Added(Added(Added(names, a), b), c);
            |names| <= |r| && r[..|names|] == names
  {
    AddedExtends(names, a);
    AddedExtends(Added(names, a), b);
    AddedExtends(Added(Added(names, a), b), c);
  }

  lemma UpdatedThriceKeeps<V>(m: map<string, V>, a: string, x: V, b: string, y: V, c: string, z: V)
    ensures forall n :: n in m && n !in [a, b, c] ==> m[a := x][b := y][c := z][n] == m[n]
  {
  }

  /** Adding a label keeps the labels before it. */
  lemma AddedExtends(names: seq<string>, n: string)
    ensures |names| <= |Added(names, n)| && Added(names, n)[..|names|] == names
  {
  }

  /** The city step succeeds on the numbers' table when the city column of
      the input is found by a matching label and holds no float; it only
      appends labels and keeps every other column. */
  lemma CitiesFound(t: Table, numbers: Table) returns (withCities: Table)
    requires t.Valid() && numbers.Valid()
    requires |t.names| <= |numbers.names| && numbers.names[..|t.names|] == t.names
    requires forall n :: n in t.cols && n !in [SalaryLabel, AgeLabel, ExperienceLabel] ==> numbers.cols[n] == t.cols[n]
    requires FindColumn(t.names, CityLabels).Ok? && LabelMatches(FindColumn(t.names, CityLabels).value, CityLabels)
    requires NoFloats(t.cols[FindColumn(t.names, CityLabels).value])
    ensures CityColumns(numbers) == Ok(withCities) && withCities.Valid()
    ensures |t.names| <= |withCities.names| && withCities.names[..|t.names|] == t.names
    ensures forall n :: n in t.cols && n !in [SalaryLabel, AgeLabel, ExperienceLabel, CityLabel, CityCodeLabel] ==>
              withCities.cols[n] == t.cols[n]
  {
    var c := FindColumn(t.names, CityLabels).value;
    assert FindColumn(numbers.names, CityLabels) == Ok(c) by {
      assert numbers.names == t.names + numbers.names[|t.names|..];
      FindColumnExtended(t.names, numbers.names[|t.names|..], CityLabels);
    }
    assert numbers.cols[c] == t.cols[c] by {
      WrittenLabelsUnmatched(c, CityLabels);
    }
    withCities := CityColumns(numbers).value;
    AddedTwiceKeepsPrefix(t.names, numbers.names, CityLabel, CityCodeLabel);
    assert forall n :: n in t.cols ==> n in numbers.cols by {
      assert forall n :: n in t.names ==> n in numbers.names[..|t.names|];
    }
  }

  /** Adding two labels keeps any prefix of the labels. */
  lemma AddedTwiceKeepsPrefix(prefix: seq<string>, names: seq<string>, a: string, b: string)
    requires |prefix| <= |names| && names[..|prefix|] == prefix
    ensures var r := Added(Added(names, a), b);
            |prefix| <= |r| && r[..|prefix|] == prefix
  {
    AddedExtends(names, a);
    AddedExtends(Added(names, a), b);
  }

  /** The text step succeeds on the cities' table when the experience and job
      columns of the input are found by matching labels and hold no float. */
  lemma TextFound(t: Table, withCities: Table)
    requires t.Valid() && withCities.Valid()
    requires |t.names| <= |withCities.names| && withCities.names[..|t.names|] == t.names
    requires forall n :: n in t.cols && n !in [SalaryLabel, AgeLabel, ExperienceLabel, CityLabel, CityCodeLabel] ==>
               withCities.cols[n] == t.cols[n]
    requires FindColumn(t.names, ExperienceLabels).Ok?
             && LabelMatches(FindColumn(t.names, ExperienceLabels).value, ExperienceLabels)
    requires FindColumn(t.names, JobLabels).Ok? && LabelMatches(FindColumn(t.names, JobLabels).value, JobLabels)
    requires NoFloats(t.cols[FindColumn(t.names, ExperienceLabels).value])
    requires NoFloats(t.cols[FindColumn(t.names, JobLabels).value])
    ensures TextColumn(withCities).Ok?
  {
    WrittenLabelsUnmatched(FindColumn(t.names, ExperienceLabels).value, ExperienceLabels);
    WrittenLabelsUnmatched(FindColumn(t.names, JobLabels).value, JobLabels);
    assert withCities.names == t.names + withCities.names[|t.names|..];
    FindColumnExtended(t.names, withCities.names[|t.names|..], ExperienceLabels);
    FindColumnExtended(t.names, withCities.names[|t.names|..], JobLabels);
  }

  /** A label that matches a Cyrillic fragment list is none of the labels
      `prepare_features` writes. */
  lemma WrittenLabelsUnmatched(n: string, candidates: seq<string>)
    requires candidates == CityLabels || candidates == ExperienceLabels || candidates == JobLabels
    requires LabelMatches(n, candidates)
    ensures n !in [SalaryLabel, AgeLabel, ExperienceLabel, CityLabel, CityCodeLabel, TextLabel]
  {
    assert forall k :: 0 <= k < |candidates| ==> candidates[k] != [] && candidates[k][0] >= '\U{80}';
    forall w | w in [SalaryLabel, AgeLabel, ExperienceLabel, CityLabel, CityCodeLabel, TextLabel]
      ensures !LabelMatches(w, candidates)
    {
      assert forall i :: 0 <= i < |w| ==> w[i] < '\U{80}';
      AsciiLabelMatchesNone(w, candidates);
    }
  }

  /** Every city is text, never empty and without a comma. */
  predicate CityCells(col: seq<Cell>) {
    forall i :: 0 <= i < |col| ==> col[i].Str? && col[i].s != [] && ',' !in col[i].s
  }

  /** Integer codes, equal exactly where the cities are equal, each below the number of rows. */
  predicate CodeCells(codes: seq<Cell>, cities: seq<Cell>) {
    && |codes| == |cities|
    && (forall i :: 0 <= i < |codes| ==> codes[i].Int? && 0 <= codes[i].i < |codes|)
    && forall i, j :: 0 <= i < |codes| && 0 <= j < |codes| ==> (codes[i] == codes[j] <==> cities[i] == cities[j])
  }

  /** Every text is without surrounding whitespace. */
  predicate StrippedCells(col: seq<Cell>) {
    forall i :: 0 <= i < |col| ==> col[i].Str? && (col[i].s == [] || (!IsSpace(col[i].s[0]) && !IsSpace(col[i].s[|col[i].s| - 1])))
  }

  lemma CityRows(t: Table)
    requires t.Valid() && CityColumns(t).Ok?
    ensures CityCells(CityColumns(t).value.cols[CityLabel])
    ensures CodeCells(CityColumns(t).value.cols[CityCodeLabel], CityColumns(t).value.cols[CityLabel])
  {
    var n := FindColumn(t.names, CityLabels).value;
    var cities := Cities(FilledTexts(t.cols[n], n).value);
    ClassesBound(cities);
  }

  lemma TextRows(t: Table)
    requires t.Valid() && TextColumn(t).Ok?
    ensures StrippedCells(TextColumn(t).value.cols[TextLabel])
  {
  }

  /** What the prepared table holds, row by row: the salary copied, the age
      and experience kept unless unknown, a city that is never empty and has
      no comma, codes that are equal exactly for equal cities and below the
      number of rows, and an experience text without surrounding whitespace. */
  lemma PreparedRows(t: Table, ageMedian: real, expMedian: real)
    requires t.Valid() && PrepareFeatures(t, ageMedian, expMedian).Ok?
    ensures var r := PrepareFeatures(t, ageMedian, expMedian).value;
            && r.cols[SalaryLabel] == t.cols[Labeling.SalaryLabel]
            && r.cols[AgeLabel] == FillSentinels(t.cols[Labeling.AgeLabel], ageMedian)
            && r.cols[ExperienceLabel] == FillSentinels(t.cols[Labeling.ExperienceLabel], expMedian)
            && CityCells(r.cols[CityLabel])
            && CodeCells(r.cols[CityCodeLabel], r.cols[CityLabel])
            && StrippedCells(r.cols[TextLabel])
    ensures var r := PrepareFeatures(t, ageMedian, expMedian).value;
            ageMedian != -1.0 ==> forall i :: 0 <= i < |r.cols[AgeLabel]| ==> !IsSentinel(r.cols[AgeLabel][i])
    ensures var r := PrepareFeatures(t, ageMedian, expMedian).value;
            expMedian != -1.0 ==>
              forall i :: 0 <= i < |r.cols[ExperienceLabel]| ==> !IsSentinel(r.cols[ExperienceLabel][i])
  {
    var numbers := Numbers(t, ageMedian, expMedian).value;
    var withCities := CityColumns(numbers).value;
    var r := TextColumn(withCities).value;
    CityRows(numbers);
    TextRows(withCities);
    assert r.cols[CityLabel] == withCities.cols[CityLabel];
    assert r.cols[CityCodeLabel] == withCities.cols[CityCodeLabel];
    assert r.cols[SalaryLabel] == withCities.cols[SalaryLabel] == numbers.cols[SalaryLabel];
    assert r.cols[AgeLabel] == withCities.cols[AgeLabel] == numbers.cols[AgeLabel];
    assert r.cols[ExperienceLabel] == withCities.cols[ExperienceLabel] == numbers.cols[ExperienceLabel];
    if ageMedian != -1.0 {
      NoSentinelLeft(t.cols[Labeling.AgeLabel], ageMedian);
    }
    if expMedian != -1.0 {
      NoSentinelLeft(t.cols[Labeling.ExperienceLabel], expMedian);
    }
  }

  /** There are no more distinct values than values. */
  lemma {:induction false} ClassesBound(values: seq<string>)
    ensures |Classes(values)| <= |values|
  {
    if values != [] {
      var init := values[..|values| - 1];
      ClassesBound(init);
      assert Classes(values) == Classes(init) + {values[|values| - 1]};
    }
  }
}
