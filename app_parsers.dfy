/** app/data/parsers.py: column lookup by label fragment and the sentinel
    parsers for the salary, age and experience fields of a résumé. */
module AppParsers {
  import opened Results
  import opened Text
  import opened Patterns
  import opened Frames
  import ParseSalary

  /** A label matches when its lower-cased form contains some lower-cased candidate. */
  predicate LabelMatches(name: string, candidates: seq<string>) {
    ContainsAny(Lower(name), LowerAll(candidates))
  }

  /** The position of the first matching label, in column order. */
  function FirstMatch(names: seq<string>, candidates: seq<string>): (k: Option<nat>)
    ensures k.Some? ==> k.value < |names|
  {
    if names == [] then None
    else if LabelMatches(names[0], candidates) then Some(0)
    else
      match FirstMatch(names[1..], candidates)
      case None => None
      case Some(k) => Some(k + 1)
  }

  /** The position found matches and none before it does; none is found only
      when no label matches. */
  lemma {:induction false} FirstMatchSpec(names: seq<string>, candidates: seq<string>)
    ensures var k := FirstMatch(names, candidates);
            && (k.Some? ==> LabelMatches(names[k.value], candidates))
            && (k.Some? ==> forall j :: 0 <= j < k.value ==> !LabelMatches(names[j], candidates))
            && (k.None? ==> forall j :: 0 <= j < |names| ==> !LabelMatches(names[j], candidates))
  {
    if names != [] && !LabelMatches(names[0], candidates) {
      FirstMatchSpec(names[1..], candidates);
      assert forall j :: 1 <= j < |names| ==> names[j] == names[1..][j - 1];
    }
  }

  /** `find_column(df, *candidates)`: the first column whose label contains a
      candidate, ignoring case; without one, the fourth column, whatever its label. */
  function FindColumn(names: seq<string>, candidates: seq<string>): (r: Result<string, Error>)
    ensures r.Ok? ==> r.value in names
    ensures r.Err? ==> r.error == IndexError(3) && |names| <= 3
  {
    match FirstMatch(names, candidates)
    case Some(k) => Ok(names[k])
    case None => if |names| > 3 then Ok(names[3]) else Err(IndexError(3))
  }

  /** With a matching label, the first one is found; without one, the fourth
      column is taken, and a table of at most three columns raises IndexError. */
  lemma FindColumnSpec(names: seq<string>, candidates: seq<string>)
    ensures (exists j :: 0 <= j < |names| && LabelMatches(names[j], candidates)) ==>
              && FindColumn(names, candidates).Ok?
              && exists k :: 0 <= k < |names| && names[k] == FindColumn(names, candidates).value
                             && LabelMatches(names[k], candidates)
                             && forall j :: 0 <= j < k ==> !LabelMatches(names[j], candidates)
    ensures (forall j :: 0 <= j < |names| ==> !LabelMatches(names[j], candidates)) ==>
              FindColumn(names, candidates) == if |names| > 3 then Ok(names[3]) else Err(IndexError(3))
  {
    FirstMatchSpec(names, candidates);
  }

  /** Labels appended after a matching one do not change which label is found. */
  lemma {:induction false} FirstMatchExtended(names: seq<string>, more: seq<string>, candidates: seq<string>)
    requires FirstMatch(names, candidates).Some?
    ensures FirstMatch(names + more, candidates) == FirstMatch(names, candidates)
  {
    if !LabelMatches(names[0], candidates) {
      assert (names + more)[1..] == names[1..] + more;
      FirstMatchExtended(names[1..], more, candidates);
    }
  }

  /** When the label `find_column` picks really matches, columns added later
      leave the pick unchanged. */
  lemma FindColumnExtended(names: seq<string>, more: seq<string>, candidates: seq<string>)
    requires FindColumn(names, candidates).Ok? && LabelMatches(FindColumn(names, candidates).value, candidates)
    ensures FindColumn(names + more, candidates) == FindColumn(names, candidates)
  {
    FirstMatchSpec(names, candidates);
    if FirstMatch(names, candidates).None? {
      assert false;
    }
    FirstMatchExtended(names, more, candidates);
  }

  /** A label of ASCII characters matches no candidate that starts with a
      non-ASCII letter, such as the Cyrillic fragments looked for here. */
  lemma AsciiLabelMatchesNone(name: string, candidates: seq<string>)
    requires forall i :: 0 <= i < |name| ==> name[i] < '\U{80}'
    requires forall k :: 0 <= k < |candidates| ==> candidates[k] != [] && candidates[k][0] >= '\U{80}'
    ensures !LabelMatches(name, candidates)
  {
    var low := Lower(name);
    forall k, i: nat | 0 <= k < |candidates| && OccursAt(low, Lower(candidates[k]), i)
      ensures false
    {
      assert false;
    }
  }

  /** The label fragments the callers of `find_column` look for. */
  const JobLabels: seq<string> := ["должность", "Ищет работу на должность"]
  const ExperienceLabels: seq<string> := ["Опыт", "опыт"]
  const SalaryLabels: seq<string> := ["ЗП", "зп"]
  const AgeLabels: seq<string> := ["Пол", "возраст"]
  const CityLabels: seq<string> := ["Город", "город"]

  /** `parse_salary`: 0 for a missing value, else the number its digits spell
      (0 without digits). A float's text is not modelled: None. */
  function Salary(value: Cell): (r: Option<nat>)
    ensures r.None? <==> value.Real?
    ensures value.Missing? ==> r == Some(0)
    ensures value.Str? ==> r == Some(DecimalValue(Digits(value.s)))
    ensures value.Int? ==> r == Some(if value.i < 0 then -value.i else value.i)
  {
    match value
    case Missing => Some(0)
    case Real(_) => None
    case Str(s) => Some(ParseSalary.ParseSalary(s))
    case Int(i) =>
      IntSalary(i);
      Some(ParseSalary.ParseSalary(IntText(i)))
  }

  /** The digits of `str(i)` spell the magnitude of `i`. */
  lemma IntSalary(i: int)
    ensures ParseSalary.ParseSalary(IntText(i)) == if i < 0 then -i else i
  {
    var n: nat := if i < 0 then -i else i;
    DigitsOfDigits(NatText(n));
    NatTextRoundTrip(n);
    if i < 0 {
      assert IntText(i) == "-" + NatText(n);
      DigitsAppend("-", NatText(n));
      DigitsOfNoDigits("-");
      assert [] + NatText(n) == NatText(n);
    }
  }

  /** The unit words after an age: `лет|год[ау]?`. */
  const YearWords: seq<string> := ["лет", "года", "году", "год"]

  /** `(\d+)\s*(?:лет|год[ау]?)`. */
  const AgePattern: seq<Token> := [Number, Spaces(false), OneOf(YearWords)]

  lemma AgePatternCaptures()
    ensures Captures(AgePattern) == 1
  {
    CapturesFrom(AgePattern, 2, 0);
    CapturesFrom(AgePattern, 1, 0);
    CapturesFrom(AgePattern, 0, 1);
  }

  /** The number before the first year word of the (lower-cased) text, else -1. */
  function AgeIn(v: string): (a: int)
    ensures a >= -1
    ensures a == -1 <==> forall i :: 0 <= i <= |v| ==> MatchAt(AgePattern, v, i).None?
  {
    var found := Search(AgePattern, v);
    if found.None? then -1
    else
      AgePatternCaptures();
      assert MatchAt(AgePattern, v, found.value.start).Some?;
      found.value.groups[0]
  }

  /** `parse_age`: -1 for a missing value, else the age read from the lower-cased text. */
  function Age(value: Cell): (a: int)
    ensures a >= -1
    ensures SearchText(value).None? ==> a == -1
    ensures SearchText(value).Some? ==> a == AgeIn(Lower(SearchText(value).value))
  {
    match SearchText(value)
    case None => -1
    case Some(s) => AgeIn(Lower(s))
  }

  /** A number, spaces and a year word at the front match the pattern, and
      the number is its one group. */
  lemma AgeMatchFront(n: nat, gap: string, word: string, rest: string)
    requires forall k :: 0 <= k < |gap| ==> IsSpace(gap[k])
    requires word in YearWords
    ensures MatchAt(AgePattern, NatText(n) + (gap + (word + rest)), 0).Some?
    ensures MatchAt(AgePattern, NatText(n) + (gap + (word + rest)), 0).value.1 == [n]
  {
    var tail := MatchAt(AgePattern[2..], word + rest, 0);
    assert tail.Some? && tail.value.1 == [] by {
      OneOfFront(AgePattern[2..], word, rest);
    }
    assert !IsSpace((word + rest)[0]) && !IsDigit((word + rest)[0]) by {
      assert (word + rest)[0] == word[0];
    }
    var spaced := MatchAt(AgePattern[1..], gap + (word + rest), 0);
    assert spaced == ShiftEnd(tail, |gap|) by {
      assert AgePattern[1..][1..] == AgePattern[2..];
      SpacesFront(AgePattern[1..], gap, word + rest);
    }
    assert !IsDigit((gap + (word + rest))[0]) by {
      if gap != [] {
        assert (gap + (word + rest))[0] == gap[0];
      }
    }
    NumberFront(AgePattern, n, gap + (word + rest));
  }

  /** The age is read at the first place the pattern matches, whatever numbers
      come before it: after a head in which the pattern matches nowhere, a
      number, spaces and a year word give that number. */
  lemma AgeAfterHead(head: string, n: nat, gap: string, word: string, rest: string)
    requires forall k :: 0 <= k < |gap| ==> IsSpace(gap[k])
    requires word in YearWords
    requires forall k :: 0 <= k < |head| ==>
               MatchAt(AgePattern, head + (NatText(n) + (gap + (word + rest))), k).None?
    ensures AgeIn(head + (NatText(n) + (gap + (word + rest)))) == n
  {
    AgeMatchFront(n, gap, word, rest);
    SearchAfter(AgePattern, head, NatText(n) + (gap + (word + rest)));
  }

  /** A text with no digit before the age, the age, spaces and a year word: the age is read back. */
  lemma AgeOfRecord(head: string, n: nat, gap: string, word: string, rest: string)
    requires forall k :: 0 <= k < |head| ==> !IsDigit(head[k])
    requires forall k :: 0 <= k < |gap| ==> IsSpace(gap[k])
    requires word in YearWords
    ensures AgeIn(head + NatText(n) + gap + word + rest) == n
  {
    var v := head + (NatText(n) + (gap + (word + rest)));
    forall k | 0 <= k < |head|
      ensures MatchAt(AgePattern, v, k).None?
    {
      assert v[k] == head[k];
    }
    AgeAfterHead(head, n, gap, word, rest);
    assert head + NatText(n) + gap + word + rest == v;
  }

  /** An earlier number that no year word follows is skipped: "id 7, 25 года"
      gives 25, not 7. */
  lemma AgeSkipsEarlierNumber()
    ensures AgeIn("id 7, 25 года") == 25
  {
    var head, v := "id 7, ", "id 7, 25 года";
    assert NatText(25) == "25";
    assert v == head + (NatText(25) + (" " + ("года" + "")));
    forall k | 0 <= k < |head|
      ensures MatchAt(AgePattern, v, k).None?
    {
      if k == 3 {
        NumberSpacesAt(AgePattern, v, 3, 4);
        NoYearWordAt(v, 4);
      } else {
        assert !IsDigit(v[k]);
      }
    }
    AgeAfterHead(head, 25, " ", "года", "");
  }

  /** No year word starts at a comma. */
  lemma NoYearWordAt(v: string, k: nat)
    requires k < |v| && v[k] == ','
    ensures MatchAt(AgePattern[2..], v, k).None?
  {
    assert AgePattern[2..] == [OneOf(YearWords)];
    forall w | w in YearWords
      ensures !StartsWith(v[k..], w)
    {
      assert v[k..][0] == ',';
    }
  }

  /** "Опыт работы". */
  const Heading := "Опыт работы"

  /** `Опыт работы\s+(\d+)\s+лет\s+(\d+)\s+месяц`. */
  const YearsAndMonths: seq<Token> :=
    [Lit(Heading), Spaces(true), Number, Spaces(true), Lit("лет"), Spaces(true), Number, Spaces(true), Lit("месяц")]
  /** `Опыт работы\s+(\d+)\s+лет`. */
  const YearsOnly: seq<Token> := [Lit(Heading), Spaces(true), Number, Spaces(true), Lit("лет")]
  /** `Опыт работы\s+(\d+)\s+месяц`. */
  const MonthsOnly: seq<Token> := [Lit(Heading), Spaces(true), Number, Spaces(true), Lit("месяц")]

  lemma ExperienceCaptures()
    ensures Captures(YearsAndMonths) == 2 && Captures(YearsOnly) == 1 && Captures(MonthsOnly) == 1
  {
    var p := YearsAndMonths;
    CapturesFrom(p, 8, 0);
    CapturesFrom(p, 7, 0);
    CapturesFrom(p, 6, 1);
    CapturesFrom(p, 5, 1);
    CapturesFrom(p, 4, 1);
    CapturesFrom(p, 3, 1);
    CapturesFrom(p, 2, 2);
    CapturesFrom(p, 1, 2);
    CapturesFrom(p, 0, 2);
    ShortPatternCaptures(YearsOnly);
    ShortPatternCaptures(MonthsOnly);
  }

  /** One step of counting the groups of a pattern from position `k`. */
  lemma CapturesFrom(p: seq<Token>, k: nat, n: nat)
    requires k < |p| && Captures(p[k + 1..]) == n - (if p[k].Number? then 1 else 0)
    ensures Captures(p[k..]) == n
  {
    assert p[k..][1..] == p[k + 1..];
  }

  /** A heading, a number and a unit word: one group. */
  lemma ShortPatternCaptures(p: seq<Token>)
    requires |p| == 5 && p[2] == Number && !p[0].Number? && !p[1].Number? && !p[3].Number? && !p[4].Number?
    ensures Captures(p) == 1
  {
    assert p[5..] == [];
    CapturesFrom(p, 4, 0);
    CapturesFrom(p, 3, 0);
    CapturesFrom(p, 2, 1);
    CapturesFrom(p, 1, 1);
    CapturesFrom(p, 0, 1);
  }

  /** The experience in years the three patterns read from a text, tried in
      order: years and months, whole years, months; -1.0 when none matches. */
  function ExperienceIn(text: string): (y: real)
    ensures y == -1.0 || y >= 0.0
    ensures y == -1.0 <==> Search(YearsAndMonths, text).None? && Search(YearsOnly, text).None? && Search(MonthsOnly, text).None?
    ensures var f := Search(YearsAndMonths, text);
            f.Some? ==> |f.value.groups| == 2 && y == f.value.groups[0] as real + f.value.groups[1] as real / 12.0
    ensures var f := Search(YearsOnly, text);
            Search(YearsAndMonths, text).None? && f.Some? ==> |f.value.groups| == 1 && y == f.value.groups[0] as real
    ensures var f := Search(MonthsOnly, text);
            Search(YearsAndMonths, text).None? && Search(YearsOnly, text).None? && f.Some? ==>
              |f.value.groups| == 1 && y == f.value.groups[0] as real / 12.0
  {
    ExperienceCaptures();
    match Search(YearsAndMonths, text)
    case Some(f) => f.groups[0] as real + f.groups[1] as real / 12.0
    case None =>
      match Search(YearsOnly, text)
      case Some(f) => f.groups[0] as real
      case None =>
        match Search(MonthsOnly, text)
        case Some(f) => f.groups[0] as real / 12.0
        case None => -1.0
  }

  /** The heading, a number and a word that does not start the pattern's
      unit: the pattern fails at the front of the text. */
  lemma HeadingThenOtherWord(p: seq<Token>, unit: string, n: nat, word: string)
    requires |p| >= 5 && p[0] == Lit(Heading) && p[1] == Spaces(true) && p[2] == Number
    requires p[3] == Spaces(true) && p[4] == Lit(unit)
    requires word != [] && unit != [] && word[0] != unit[0] && !IsSpace(word[0])
    ensures MatchAt(p, Heading + (" " + (NatText(n) + (" " + word))), 0).None?
  {
    var tail := " " + word;
    var number := NatText(n) + tail;
    assert MatchAt(p[4..], word, 0).None? by {
      assert p[4..][0] == Lit(unit);
      assert word[0..] == word;
      assert !StartsWith(word, unit) by {
        if |unit| <= |word| {
          assert word[..|unit|][0] != unit[0];
        }
      }
    }
    assert MatchAt(p[3..], tail, 0).None? by {
      assert p[3..][1..] == p[4..];
      SpacesFront(p[3..], " ", word);
    }
    assert MatchAt(p[2..], number, 0).None? by {
      assert p[2..][1..] == p[3..];
      NumberFront(p[2..], n, tail);
    }
    assert MatchAt(p[1..], " " + number, 0).None? by {
      assert p[1..][1..] == p[2..];
      assert !IsSpace(NatText(n)[0]);
      SpacesFront(p[1..], " ", number);
    }
    LitFront(p, Heading, " " + number);
  }

  /** The record text with the years written as "года". */
  const GodaRecord := "Опыт работы 2 года 3 месяца"

  /** A pattern of the heading, a number and a unit other than "года"
      matches nowhere in that record. */
  lemma GodaRecordUnmatched(p: seq<Token>, unit: string)
    requires |p| >= 5 && p[0] == Lit(Heading) && p[1] == Spaces(true) && p[2] == Number
    requires p[3] == Spaces(true) && p[4] == Lit(unit)
    requires unit != [] && unit[0] != 'г'
    ensures Search(p, GodaRecord).None?
  {
    var word := "года 3 месяца";
    assert GodaRecord == Heading + (" " + (NatText(2) + (" " + word)));
    HeadingThenOtherWord(p, unit, 2, word);
    HeadingLetterOnce();
    LitOnlyAtStart(p, GodaRecord);
  }

  /** The capital letter that opens the heading occurs nowhere else in that record. */
  lemma HeadingLetterOnce()
    ensures Heading[0] !in GodaRecord[1..]
  {
    var t := GodaRecord[1..];
    assert t == "пыт работы 2 года 3 месяца";
    assert forall k :: 0 <= k < |t| ==> t[k] != 'О';
  }

  /** A record that writes the years as "года" ("2 года 3 месяца") matches
      none of the three patterns, which want "лет" or "месяц" right after the
      first number: its experience is unknown. */
  lemma ExperienceYearsAsGoda()
    ensures ExperienceIn(GodaRecord) == -1.0
  {
    GodaRecordUnmatched(YearsAndMonths, "лет");
    GodaRecordUnmatched(YearsOnly, "лет");
    GodaRecordUnmatched(MonthsOnly, "месяц");
  }

  /** The text of a record with both parts: the heading, years, "лет", months,
      "месяц" and then anything; the gaps are runs of whitespace. */
  function ExperienceRecord(g1: string, n: nat, g2: string, g3: string, m: nat, g4: string, rest: string): string {
    Heading + (g1 + (NatText(n) + (g2 + ("лет" + (g3 + (NatText(m) + (g4 + ("месяц" + rest))))))))
  }

  predicate IsGap(g: string) {
    g != [] && forall k :: 0 <= k < |g| ==> IsSpace(g[k])
  }

  /** A record with years and months is read as years plus months / 12; the
      whole-years pattern matches it too, but the first pattern wins. */
  lemma ExperienceOfRecord(g1: string, n: nat, g2: string, g3: string, m: nat, g4: string, rest: string)
    requires IsGap(g1) && IsGap(g2) && IsGap(g3) && IsGap(g4)
    ensures ExperienceIn(ExperienceRecord(g1, n, g2, g3, m, g4, rest)) == n as real + m as real / 12.0
    ensures Search(YearsOnly, ExperienceRecord(g1, n, g2, g3, m, g4, rest)).Some?
  {
    var text := ExperienceRecord(g1, n, g2, g3, m, g4, rest);
    var s5 := g3 + (NatText(m) + (g4 + ("месяц" + rest)));
    assert YearsAndMonths[5..][4..] == [] by {
      assert YearsAndMonths[5..][4..] == YearsAndMonths[9..];
    }
    assert MatchAt(YearsAndMonths[5..][4..], rest, 0) == Some((0, []));
    UnitTail(YearsAndMonths[5..], g3, m, g4, "месяц", rest, []);
    YearsHead(YearsAndMonths, g1, n, g2, s5, [m]);
    SearchFindsFirst(YearsAndMonths, text, 0);
    assert MatchAt(YearsOnly[5..], s5, 0) == Some((0, [])) by {
      assert YearsOnly[5..] == [];
    }
    YearsHead(YearsOnly, g1, n, g2, s5, []);
    assert MatchAt(YearsOnly, text, 0).Some?;
  }

  /** Spaces, a number, spaces and a unit word in front of a match of the rest
      of a pattern of that shape: the pattern matches, the number first. */
  lemma UnitTail(p: seq<Token>, g3: string, m: nat, g4: string, unit: string, rest: string, g: seq<nat>)
    requires |p| >= 4 && p[0] == Spaces(true) && p[1] == Number && p[2] == Spaces(true) && p[3] == Lit(unit)
    requires unit != [] && !IsSpace(unit[0])
    requires IsGap(g3) && IsGap(g4)
    requires MatchAt(p[4..], rest, 0).Some? && MatchAt(p[4..], rest, 0).value.1 == g
    ensures var s := g3 + (NatText(m) + (g4 + (unit + rest)));
            MatchAt(p, s, 0).Some? && MatchAt(p, s, 0).value.1 == [m] + g
  {
    var s3 := unit + rest;
    var s2 := g4 + s3;
    var s1 := NatText(m) + s2;
    assert MatchAt(p[3..], s3, 0).Some? && MatchAt(p[3..], s3, 0).value.1 == g by {
      assert p[3..][1..] == p[4..];
      LitStep(p[3..], unit, rest, g);
    }
    assert MatchAt(p[2..], s2, 0).Some? && MatchAt(p[2..], s2, 0).value.1 == g by {
      assert p[2..][1..] == p[3..];
      assert s3[0] == unit[0];
      SpacesStep(p[2..], g4, s3, g);
    }
    assert MatchAt(p[1..], s1, 0).Some? && MatchAt(p[1..], s1, 0).value.1 == [m] + g by {
      assert p[1..][1..] == p[2..];
      assert s2[0] == g4[0];
      NumberStep(p[1..], m, s2, g);
    }
    assert s1[0] == NatText(m)[0];
    SpacesStep(p, g3, s1, [m] + g);
  }

  /** The heading, spaces, the years, spaces and "лет" in front of a match of
      the rest of an experience pattern: the pattern matches, years first. */
  lemma YearsHead(p: seq<Token>, g1: string, n: nat, g2: string, s5: string, g: seq<nat>)
    requires |p| >= 5 && p[..5] == YearsOnly
    requires IsGap(g1) && IsGap(g2)
    requires MatchAt(p[5..], s5, 0).Some? && MatchAt(p[5..], s5, 0).value.1 == g
    ensures var text := Heading + (g1 + (NatText(n) + (g2 + ("лет" + s5))));
            MatchAt(p, text, 0).Some? && MatchAt(p, text, 0).value.1 == [n] + g
  {
    var s1 := g1 + (NatText(n) + (g2 + ("лет" + s5)));
    assert p[0] == Lit(Heading) by {
      assert p[..5][0] == p[0];
    }
    assert MatchAt(p[1..], s1, 0).Some? && MatchAt(p[1..], s1, 0).value.1 == [n] + g by {
      var q := p[1..];
      assert q[0] == Spaces(true) && q[1] == Number && q[2] == Spaces(true) && q[3] == Lit("лет") by {
        assert q[0] == p[..5][1] && q[1] == p[..5][2] && q[2] == p[..5][3] && q[3] == p[..5][4];
      }
      assert q[4..] == p[5..];
      UnitTail(q, g1, n, g2, "лет", s5, g);
    }
    LitStep(p, Heading, s1, [n] + g);
  }

  /** `parse_experience_years`: -1.0 for a missing value, else the reading of
      the first 200 characters of its text. */
  function ExperienceYears(value: Cell): (y: real)
    ensures y == -1.0 || y >= 0.0
    ensures SearchText(value).None? ==> y == -1.0
    ensures SearchText(value).Some? ==> y == ExperienceIn(Take(SearchText(value).value, 200))
  {
    match SearchText(value)
    case None => -1.0
    case Some(s) => ExperienceIn(Take(s, 200))
  }

  /** Nothing after the 200th character changes the reading. */
  lemma ExperienceReadsPrefix(s: string, tail: string)
    requires |s| >= 200
    ensures ExperienceYears(Str(s + tail)) == ExperienceYears(Str(s))
  {
    assert Take(s + tail, 200) == Take(s, 200);
  }
}
