/** chain_pattern/handlers/encode_categorical.py: categorical text columns
    replaced by LabelEncoder codes. */
module EncodeCategorical {
  import opened Results
  import opened Frames
  import opened LabelEncoding

  const Categorical: seq<string> := ["ищет_работу_на_должность:", "занятость", "график", "city", "авто"]

  /** `df[n].astype(str)`: every cell as text; a float cell has no modelled text. */
  function ColumnTexts(col: seq<Cell>, n: string): (r: Result<seq<string>, Error>)
    ensures r.Ok? <==> forall i :: 0 <= i < |col| ==> !col[i].Real?
    ensures r.Ok? ==> |r.value| == |col| && forall i :: 0 <= i < |col| ==> CellText(col[i]) == Some(r.value[i])
    ensures r.Err? ==> r.error == FloatText(n)
  {
    if forall i :: 0 <= i < |col| ==> !col[i].Real? then
      Ok(seq(|col|, i requires 0 <= i < |col| => CellText(col[i]).value))
    else Err(FloatText(n))
  }

  /** `LabelEncoder().fit_transform(df[n].astype(str))` as a column of integer cells. */
  function Encoded(col: seq<Cell>, n: string): (r: Result<seq<Cell>, Error>)
    ensures r.Ok? <==> ColumnTexts(col, n).Ok?
    ensures r.Ok? ==> r.value == IntCells(Encode(ColumnTexts(col, n).value))
    ensures r.Err? ==> r.error == FloatText(n)
  {
    var texts :- ColumnTexts(col, n);
    Ok(IntCells(Encode(texts)))
  }

  /** One turn of the loop: an absent column is skipped, a present one is replaced where it stands. */
  function EncodeOne(t: Table, n: string): (r: Result<Table, Error>)
    requires t.Valid()
    ensures n !in t.cols ==> r == Ok(t)
    ensures n in t.cols ==> (r.Ok? <==> Encoded(t.cols[n], n).Ok?)
    ensures r.Ok? ==> && r.value.Valid() && r.value.names == t.names && r.value.rows == t.rows
                      && r.value.cols == (if n in t.cols then t.cols[n := Encoded(t.cols[n], n).value] else t.cols)
    ensures r.Err? ==> r.error == FloatText(n)
  {
    if n !in t.cols then Ok(t)
    else
      var codes :- Encoded(t.cols[n], n);
      Ok(t.Set(n, codes))
  }

  /** The loop over `names`, stopping at the first failure. */
  function EncodeAll(t: Table, names: seq<string>): (r: Result<Table, Error>)
    requires t.Valid()
    ensures r.Ok? ==> r.value.Valid() && r.value.names == t.names && r.value.rows == t.rows
    decreases |names|
  {
    if names == [] then Ok(t)
    else
      var before :- EncodeAll(t, names[..|names| - 1]);
      EncodeOne(before, names[|names| - 1])
  }

  /** `EncodeCategoricalHandler.process`: the `for` loop over the categorical
      labels, each present column re-encoded in the frame itself. */
  method Process(df: DataFrame) returns (r: Result<DataFrame, Error>)
    requires df.Valid()
    modifies df
    ensures InPlace(r, df, EncodeAll(old(df.Snapshot()), Categorical))
  {
    ghost var start := df.Snapshot();
    for k := 0 to |Categorical|
      invariant df.Valid()
      invariant EncodeAll(start, Categorical[..k]) == Ok(df.Snapshot())
    {
      var n := Categorical[k];
      EncodeAllStep(start, Categorical, k);
      if n in df.data {
        var codes := Encoded(df.data[n], n);
        if codes.Err? {
          FailureStops(start, Categorical, k + 1);
          return Err(codes.error);
        }
        df.SetColumn(n, codes.value);
      }
    }
    assert Categorical[..|Categorical|] == Categorical;
    r := Ok(df);
  }

  /** One more turn of the loop over a prefix of `names`. */
  lemma EncodeAllStep(t: Table, names: seq<string>, k: nat)
    requires t.Valid() && k < |names|
    ensures EncodeAll(t, names[..k + 1]) == match EncodeAll(t, names[..k])
                                             case Err(e) => Err(e)
                                             case Ok(before) => EncodeOne(before, names[k])
  {
    assert names[..k + 1][..k] == names[..k];
  }

  /** Once a prefix of the loop fails, the whole loop fails the same way. */
  lemma {:induction false} FailureStops(t: Table, names: seq<string>, k: nat)
    requires t.Valid() && k <= |names| && EncodeAll(t, names[..k]).Err?
    ensures EncodeAll(t, names) == EncodeAll(t, names[..k])
    decreases |names| - k
  {
    if k < |names| {
      assert names[..k + 1][..k] == names[..k];
      FailureStops(t, names, k + 1);
    } else {
      assert names[..k] == names;
    }
  }

  /** What the whole loop computes, stated column by column: with distinct
      labels, it succeeds exactly when no listed column holds a float, and
      then each listed column present is replaced by the codes of its own
      original texts while every other column is untouched. */
  lemma {:induction false} EncodeAllSpec(t: Table, names: seq<string>)
    requires t.Valid() && Distinct(names)
    ensures EncodeAll(t, names).Ok? <==>
              forall n :: n in names && n in t.cols ==> Encoded(t.cols[n], n).Ok?
    ensures EncodeAll(t, names).Ok? ==>
              && EncodeAll(t, names).value.cols.Keys == t.cols.Keys
              && forall n :: n in t.cols ==>
                   EncodeAll(t, names).value.cols[n] ==
                     if n in names then Encoded(t.cols[n], n).value else t.cols[n]
    decreases |names|
  {
    if names != [] {
      var init, last := names[..|names| - 1], names[|names| - 1];
      assert Distinct(init);
      assert last !in init;
      assert forall n :: n in names <==> n in init || n == last;
      EncodeAllSpec(t, init);
      var before := EncodeAll(t, init);
      if before.Ok? {
        assert last in t.cols ==> before.value.cols[last] == t.cols[last];
      } else {
        var n :| n in init && n in t.cols && !Encoded(t.cols[n], n).Ok?;
        assert n in names;
      }
    }
  }
}
