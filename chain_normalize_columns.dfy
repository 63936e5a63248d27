/** chain_pattern/handlers/normalize_columns.py: canonical column labels. */
module NormalizeColumns {
  import opened Results
  import opened Text
  import opened Frames

  /** One label: stripped, lower-cased, spaces turned into `_`, commas deleted. */
  function NormalizeName(n: string): (r: string)
    ensures ' ' !in r && ',' !in r
  {
    RemoveChar(ReplaceChar(Lower(Strip(n)), ' ', '_'), ',')
  }

  /** Every label rewritten, position by position. */
  function NormalizeNames(names: seq<string>): (r: seq<string>)
    ensures |r| == |names| && forall k :: 0 <= k < |names| ==> r[k] == NormalizeName(names[k])
  {
    seq(|names|, k requires 0 <= k < |names| => NormalizeName(names[k]))
  }

  /** The table `process` leaves behind. Labels that the rewrite makes equal
      would give pandas duplicate labels; the model reports DuplicateColumns. */
  function Normalize(t: Table): (r: Result<Table, Error>)
    requires t.Valid()
    ensures r.Err? <==> !Distinct(NormalizeNames(t.names))
    ensures r.Err? ==> r.error == DuplicateColumns
    ensures r.Ok? ==> && r.value.Valid() && r.value.rows == t.rows
                      && |r.value.names| == |t.names|
                      && (forall k :: 0 <= k < |t.names| ==>
                            r.value.names[k] == NormalizeName(t.names[k])
                            && r.value.cols[r.value.names[k]] == t.cols[t.names[k]])
                      && (forall n :: n in r.value.names ==> ' ' !in n && ',' !in n)
  {
    var names := NormalizeNames(t.names);
    if Distinct(names) then Ok(t.Rename(names)) else Err(DuplicateColumns)
  }

  /** `NormalizeColumnsHandler.process`: assigns the new labels to the frame itself. */
  method Process(df: DataFrame) returns (r: Result<DataFrame, Error>)
    requires df.Valid()
    modifies df
    ensures InPlace(r, df, Normalize(old(df.Snapshot())))
  {
    var names := NormalizeNames(df.columns);
    if !Distinct(names) {
      return Err(DuplicateColumns);
    }
    df.SetColumnNames(names);
    r := Ok(df);
  }

  /** The combined gender/age header of the résumé export becomes the label the next stage reads. */
  lemma GenderAgeHeader()
    ensures NormalizeName("Пол, возраст") == "пол_возраст"
  {
    var header := "Пол, возраст";
    StripStripped(header);
    HeaderPieces();
    HeaderLowered();
    HeaderUnderscored();
    HeaderJoined();
  }

  /** The header in three pieces, each short enough to evaluate on its own. */
  lemma HeaderPieces()
    ensures "Пол, возраст" == "Пол" + ", " + "возраст"
  {
  }

  lemma HeaderLowered()
    ensures Lower("Пол" + ", " + "возраст") == "пол" + ", " + "возраст"
  {
    LowerAppend("Пол" + ", ", "возраст");
    LowerAppend("Пол", ", ");
    FirstPieceLowered();
    SeparatorLowered();
    LastPieceLowered();
  }

  lemma FirstPieceLowered()
    ensures Lower("Пол") == "пол"
  {
  }

  lemma SeparatorLowered()
    ensures Lower(", ") == ", "
  {
  }

  lemma LastPieceLowered()
    ensures Lower("возраст") == "возраст"
  {
  }

  lemma HeaderUnderscored()
    ensures ReplaceChar("пол" + ", " + "возраст", ' ', '_') == "пол" + ",_" + "возраст"
  {
    ReplaceCharAppend("пол" + ", ", "возраст", ' ', '_');
    ReplaceCharAppend("пол", ", ", ' ', '_');
    ReplaceNoChar("пол", ' ', '_');
    SeparatorUnderscored();
    ReplaceNoChar("возраст", ' ', '_');
  }

  lemma SeparatorUnderscored()
    ensures ReplaceChar(", ", ' ', '_') == ",_"
  {
  }

  lemma HeaderJoined()
    ensures RemoveChar("пол" + ",_" + "возраст", ',') == "пол_возраст"
  {
    RemoveCharAppend("пол" + ",_", "возраст", ',');
    RemoveCharAppend("пол", ",_", ',');
    RemoveNoChar("пол", ',');
    SeparatorJoined();
    RemoveNoChar("возраст", ',');
    JoinedPieces();
  }

  lemma SeparatorJoined()
    ensures RemoveChar(",_", ',') == "_"
  {
  }

  lemma JoinedPieces()
    ensures "пол" + "_" + "возраст" == "пол_возраст"
  {
  }

  /** `str.replace` of one character distributes over concatenation. */
  lemma ReplaceCharAppend(a: string, b: string, x: char, y: char)
    ensures ReplaceChar(a + b, x, y) == ReplaceChar(a, x, y) + ReplaceChar(b, x, y)
  {
    var r, ra, rb := ReplaceChar(a + b, x, y), ReplaceChar(a, x, y), ReplaceChar(b, x, y);
    forall i | 0 <= i < |a + b|
      ensures r[i] == (ra + rb)[i]
    {
      if i < |a| {
        assert (a + b)[i] == a[i];
      } else {
        assert (a + b)[i] == b[i - |a|];
      }
    }
  }

  lemma ReplaceNoChar(s: string, x: char, y: char)
    requires x !in s
    ensures ReplaceChar(s, x, y) == s
  {
  }

  lemma {:induction false} RemoveNoChar(s: string, c: char)
    requires c !in s
    ensures RemoveChar(s, c) == s
  {
    if s != [] {
      RemoveNoChar(s[1..], c);
    }
  }

  lemma {:induction false} RemoveCharAppend(a: string, b: string, c: char)
    ensures RemoveChar(a + b, c) == RemoveChar(a, c) + RemoveChar(b, c)
  {
    if a == [] {
      assert a + b == b;
    } else {
      assert (a + b)[0] == a[0] && (a + b)[1..] == a[1..] + b;
      RemoveCharAppend(a[1..], b, c);
    }
  }

  /** A header without surrounding whitespace, spaces or commas normalizes to its lower-case form. */
  lemma PlainHeader(h: string, lowered: string)
    requires h == [] || (!IsSpace(h[0]) && !IsSpace(h[|h| - 1]))
    requires Lower(h) == lowered && ' ' !in lowered && ',' !in lowered
    ensures NormalizeName(h) == lowered
  {
    StripStripped(h);
    ReplaceNoChar(lowered, ' ', '_');
    RemoveNoChar(lowered, ',');
  }

  lemma SalaryHeader()
    ensures NormalizeName("ЗП") == "зп"
  {
    SalaryHeaderLowered();
    PlainHeader("ЗП", "зп");
  }

  lemma SalaryHeaderLowered()
    ensures Lower("ЗП") == "зп"
  {
  }

  lemma CityHeader()
    ensures NormalizeName("Город") == "город"
  {
    CityHeaderLowered();
    PlainHeader("Город", "город");
  }

  lemma CityHeaderLowered()
    ensures Lower("Город") == "город"
  {
  }
}
