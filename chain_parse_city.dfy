/** chain_pattern/handlers/parse_city.py: the first city of the "город" list. */
module ParseCity {
  import opened Results
  import opened Text
  import opened Frames

  const Source := "город"
  const Target := "city"

  /** The text before the first comma, without surrounding whitespace. */
  function ParseCity(v: string): (c: string)
    ensures ',' !in c
    ensures c == [] || (!IsSpace(c[0]) && !IsSpace(c[|c| - 1]))
  {
    var first := BeforeFirst(v, ',');
    StripWithout(first, ',');
    Strip(first)
  }

  function Cities(texts: seq<string>): (c: seq<string>)
    ensures |c| == |texts| && forall i :: 0 <= i < |texts| ==> c[i] == ParseCity(texts[i])
  {
    seq(|texts|, i requires 0 <= i < |texts| => ParseCity(texts[i]))
  }

  /** The table `process` leaves behind: "city" added, "город" dropped. */
  function Apply(t: Table): (r: Result<Table, Error>)
    requires t.Valid()
    ensures r.Ok? <==> Source in t.cols && forall i :: 0 <= i < t.rows ==> t.cols[Source][i].Str?
    ensures r.Err? && Source !in t.cols ==> r.error == KeyError(Source)
    ensures r.Err? && Source in t.cols ==> r.error == NotText(Source)
    ensures r.Ok? ==> && r.value.Valid() && r.value.rows == t.rows
                      && r.value.names == Remove(Added(t.names, Target), Source)
                      && Source !in r.value.cols && Target in r.value.cols
                      && (forall i :: 0 <= i < t.rows ==>
                            r.value.cols[Target][i] == Str(ParseCity(t.cols[Source][i].s)))
                      && (forall n :: n in t.cols && n != Source && n != Target ==>
                            n in r.value.cols && r.value.cols[n] == t.cols[n])
  {
    var texts :- Texts(t, Source);
    LabelsDiffer();
    Ok(t.Set(Target, StrCells(Cities(texts))).Drop(Source))
  }

  lemma LabelsDiffer()
    ensures Source != Target
  {
    assert Source[0] != Target[0];
  }

  /** `ParseCityHandler.process`, updating the frame itself. */
  method Process(df: DataFrame) returns (r: Result<DataFrame, Error>)
    requires df.Valid()
    modifies df
    ensures InPlace(r, df, Apply(old(df.Snapshot())))
  {
    var texts := Texts(df.Snapshot(), Source);
    if texts.Err? {
      return Err(texts.error);
    }
    df.SetColumn(Target, StrCells(Cities(texts.value)));
    LabelsDiffer();
    df.DropColumn(Source);
    r := Ok(df);
  }

  /** A list "Москва , м. Арбат" gives its first entry, stripped. */
  lemma CityOfList(first: string, rest: string)
    requires ',' !in first
    ensures ParseCity(first + "," + rest) == Strip(first)
  {
    BeforeFirstUpTo(first, rest);
  }

  lemma {:induction false} BeforeFirstUpTo(first: string, rest: string)
    requires ',' !in first
    ensures BeforeFirst(first + "," + rest, ',') == first
  {
    if first == [] {
      assert ([] + ",") + rest == [','] + rest;
    } else {
      var v := first + "," + rest;
      assert v[0] == first[0] && v[1..] == first[1..] + "," + rest;
      BeforeFirstUpTo(first[1..], rest);
      assert first == [first[0]] + first[1..];
    }
  }

  /** A value without a comma is one city: it is only stripped. */
  lemma CityWithoutComma(v: string)
    requires ',' !in v
    ensures ParseCity(v) == Strip(v)
  {
    BeforeFirstWithout(v);
  }

  /** Applying the parse to its own output changes nothing. */
  lemma CityIdempotent(v: string)
    ensures ParseCity(ParseCity(v)) == ParseCity(v)
  {
    var c := ParseCity(v);
    BeforeFirstWithout(c);
    StripStripped(c);
  }

  lemma {:induction false} BeforeFirstWithout(s: string)
    requires ',' !in s
    ensures BeforeFirst(s, ',') == s
  {
    if s != [] {
      assert ',' !in s[1..];
      BeforeFirstWithout(s[1..]);
    }
  }
}
