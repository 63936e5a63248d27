/** chain_pattern/handlers/parse_gender_age.py: gender and age out of the
    combined "пол_возраст" column. */
module ParseGenderAge {
  import opened Results
  import opened Text
  import opened Patterns
  import opened Frames

  const Column := "пол_возраст"

  /** `(\d+)\s*года`. */
  const AgePattern: seq<Token> := [Number, Spaces(false), Lit("года")]

  /** 1 when the lower-cased text mentions "муж", else 0. */
  function ParseGender(v: string): (g: int)
    ensures g == 0 || g == 1
    ensures g == 1 <==> Occurs(Lower(v), "муж")
  {
    if Contains(Lower(v), "муж") then 1 else 0
  }

  /** The number in front of the first "года" (spaces allowed between), else -1. */
  function ParseAge(v: string): (a: int)
    ensures a >= -1
    ensures a == -1 <==> forall i :: 0 <= i <= |v| ==> MatchAt(AgePattern, v, i).None?
  {
    var found := Search(AgePattern, v);
    if found.None? then -1
    else
      AgePatternCaptures();
      FoundMatch(v, found.value);
      found.value.groups[0]
  }

  lemma AgePatternCaptures()
    ensures Captures(AgePattern) == 1
  {
  }

  lemma FoundMatch(v: string, f: Found)
    requires f.start <= |v| && MatchAt(AgePattern, v, f.start).Some?
    ensures !(forall i :: 0 <= i <= |v| ==> MatchAt(AgePattern, v, i).None?)
  {
  }

  /** The table `process` leaves behind: gender and age added, the source column dropped. */
  function Apply(t: Table): (r: Result<Table, Error>)
    requires t.Valid()
    ensures r.Ok? <==> Column in t.cols && forall i :: 0 <= i < t.rows ==> t.cols[Column][i].Str?
    ensures r.Err? && Column !in t.cols ==> r.error == KeyError(Column)
    ensures r.Err? && Column in t.cols ==> r.error == NotText(Column)
    ensures r.Ok? ==> && r.value.Valid() && r.value.rows == t.rows
                      && Column !in r.value.cols && "gender" in r.value.cols && "age" in r.value.cols
                      && r.value.names == Remove(Added(Added(t.names, "gender"), "age"), Column)
                      && (forall i :: 0 <= i < t.rows ==>
                            && r.value.cols["gender"][i] == Int(ParseGender(t.cols[Column][i].s))
                            && r.value.cols["age"][i] == Int(ParseAge(t.cols[Column][i].s)))
                      && (forall n :: n in t.cols && n !in {Column, "gender", "age"} ==>
                            n in r.value.cols && r.value.cols[n] == t.cols[n])
  {
    var texts :- Texts(t, Column);
    var withGender := t.Set("gender", IntCells(Genders(texts)));
    var withAge := withGender.Set("age", IntCells(Ages(texts)));
    LabelsDiffer();
    Ok(withAge.Drop(Column))
  }

  lemma LabelsDiffer()
    ensures Column != "gender" && Column != "age" && "gender" != "age"
  {
    assert Column[0] != 'g' && Column[0] != 'a' && "gender"[0] != "age"[0];
  }

  function Genders(texts: seq<string>): (g: seq<int>)
    ensures |g| == |texts| && forall i :: 0 <= i < |texts| ==> g[i] == ParseGender(texts[i])
  {
    seq(|texts|, i requires 0 <= i < |texts| => ParseGender(texts[i]))
  }

  function Ages(texts: seq<string>): (a: seq<int>)
    ensures |a| == |texts| && forall i :: 0 <= i < |texts| ==> a[i] == ParseAge(texts[i])
  {
    seq(|texts|, i requires 0 <= i < |texts| => ParseAge(texts[i]))
  }

  /** `ParseGenderAgeHandler.process`, updating the frame itself. */
  method Process(df: DataFrame) returns (r: Result<DataFrame, Error>)
    requires df.Valid()
    modifies df
    ensures InPlace(r, df, Apply(old(df.Snapshot())))
  {
    var texts := Texts(df.Snapshot(), Column);
    if texts.Err? {
      return Err(texts.error);
    }
    df.SetColumn("gender", IntCells(Genders(texts.value)));
    df.SetColumn("age", IntCells(Ages(texts.value)));
    df.DropColumn(Column);
    r := Ok(df);
  }

  /** The gender flag does not depend on letter case. */
  lemma GenderIgnoresCase(v: string)
    ensures ParseGender(Lower(v)) == ParseGender(v)
  {
    LowerIdempotent(v);
  }

  /** A record that opens with "Мужчина" is read as male, whatever follows. */
  lemma MaleRecord(rest: string)
    ensures ParseGender("Мужчина" + rest) == 1
  {
    LowerAppend("Мужчина", rest);
    MaleWordLowered();
    assert OccursAt(Lower("Мужчина" + rest), "муж", 0);
  }

  lemma MaleWordLowered()
    ensures Lower("Мужчина") == "мужчина"
  {
  }

  /** Any match of the pattern contains the word "года", so its first letter is in the text. */
  lemma MatchNeedsYearsWord(v: string, i: nat)
    requires i <= |v| && MatchAt(AgePattern, v, i).Some?
    ensures 'г' in v
  {
    var j := DigitRunEnd(v, i);
    var k := SpaceRunEnd(v, j);
    assert MatchAt(AgePattern, v, i) == MatchAt(AgePattern[1..], v, j).(value := (MatchAt(AgePattern[1..], v, j).value.0, [DecimalValue(v[i..j])] + MatchAt(AgePattern[1..], v, j).value.1));
    assert MatchAt(AgePattern[1..], v, j) == MatchAt(AgePattern[2..], v, k);
    assert StartsWith(v[k..], "года");
    assert v[k] == 'г';
  }

  /** Ages written with "лет" or "год" are not read: without the letter of
      "года" anywhere in the text the age is -1. */
  lemma AgeNeedsYearsWord(v: string)
    requires 'г' !in v
    ensures ParseAge(v) == -1
  {
    forall i | 0 <= i <= |v|
      ensures MatchAt(AgePattern, v, i).None?
    {
      if MatchAt(AgePattern, v, i).Some? {
        MatchNeedsYearsWord(v, i);
      }
    }
  }

  /** The age is read at the first place the pattern matches, whatever
      numbers come before it: after a head in which the pattern matches
      nowhere, a number, spaces and "года" give that number. */
  lemma AgeAfterHead(head: string, n: nat, gap: string, rest: string)
    requires forall k :: 0 <= k < |gap| ==> IsSpace(gap[k])
    requires forall k :: 0 <= k < |head| ==>
               MatchAt(AgePattern, head + (NatText(n) + (gap + ("года" + rest))), k).None?
    ensures ParseAge(head + (NatText(n) + (gap + ("года" + rest)))) == n
  {
    var x := NatText(n) + (gap + ("года" + rest));
    AgeMatchFront(n, gap, rest);
    SearchAfter(AgePattern, head, x);
  }

  /** A number, spaces and "года" at the front match the pattern, and the
      number is its one group. */
  lemma AgeMatchFront(n: nat, gap: string, rest: string)
    requires forall k :: 0 <= k < |gap| ==> IsSpace(gap[k])
    ensures MatchAt(AgePattern, NatText(n) + (gap + ("года" + rest)), 0).Some?
    ensures MatchAt(AgePattern, NatText(n) + (gap + ("года" + rest)), 0).value.1 == [n]
  {
    var tail := MatchAt(AgePattern[2..], "года" + rest, 0);
    assert tail == Some((4, [])) by {
      LitFront(AgePattern[2..], "года", rest);
      assert AgePattern[2..][1..] == [];
    }
    var spaced := MatchAt(AgePattern[1..], gap + ("года" + rest), 0);
    assert spaced == ShiftEnd(tail, |gap|) by {
      assert AgePattern[1..][1..] == AgePattern[2..];
      SpacesFront(AgePattern[1..], gap, "года" + rest);
    }
    assert gap + ("года" + rest) != [] && !IsDigit((gap + ("года" + rest))[0]);
    NumberFront(AgePattern, n, gap + ("года" + rest));
  }

  /** The record layout of the export: a text without digits, the age, spaces,
      "года", then anything. The age is read back exactly. */
  lemma AgeOfRecord(head: string, n: nat, gap: string, rest: string)
    requires forall k :: 0 <= k < |head| ==> !IsDigit(head[k])
    requires forall k :: 0 <= k < |gap| ==> IsSpace(gap[k])
    ensures ParseAge(head + NatText(n) + gap + "года" + rest) == n
  {
    var v := head + (NatText(n) + (gap + ("года" + rest)));
    forall k | 0 <= k < |head|
      ensures MatchAt(AgePattern, v, k).None?
    {
      assert v[k] == head[k];
    }
    AgeAfterHead(head, n, gap, rest);
    assert head + NatText(n) + gap + "года" + rest == v;
  }

  /** An earlier number that no "года" follows is skipped: "ID 7, 25 года"
      gives 25, not 7. */
  lemma AgeSkipsEarlierNumber()
    ensures ParseAge("ID 7, 25 года") == 25
  {
    var head, v := "ID 7, ", "ID 7, 25 года";
    assert NatText(25) == "25";
    assert v == head + (NatText(25) + (" " + ("года" + "")));
    forall k | 0 <= k < |head|
      ensures MatchAt(AgePattern, v, k).None?
    {
      if k == 3 {
        DigitRunEndAt(v, 3, 4);
        SpaceRunEndAt(v, 4, 4);
        assert !StartsWith(v[4..], "года");
      } else {
        assert !IsDigit(v[k]);
      }
    }
    AgeAfterHead(head, 25, " ", "");
  }
}
