/** chain_pattern/handlers/parse_salary.py: the salary figure out of the "зп" text. */
module ParseSalary {
  import opened Results
  import opened Text
  import opened Frames

  const Source := "зп"
  const Target := "salary"

  /** Every digit of the text, read as one number; 0 when there is none. */
  function ParseSalary(v: string): (n: nat)
    ensures n == DecimalValue(Digits(v))
  {
    var digits := Digits(v);
    if digits == [] then 0 else DecimalValue(digits)
  }

  function Salaries(texts: seq<string>): (s: seq<int>)
    ensures |s| == |texts| && forall i :: 0 <= i < |texts| ==> s[i] == ParseSalary(texts[i])
  {
    seq(|texts|, i requires 0 <= i < |texts| => ParseSalary(texts[i]))
  }

  /** The table `process` leaves behind: "salary" set, every other column as it was. */
  function Apply(t: Table): (r: Result<Table, Error>)
    requires t.Valid()
    ensures r.Ok? <==> Source in t.cols && forall i :: 0 <= i < t.rows ==> t.cols[Source][i].Str?
    ensures r.Err? && Source !in t.cols ==> r.error == KeyError(Source)
    ensures r.Err? && Source in t.cols ==> r.error == NotText(Source)
    ensures r.Ok? ==> && r.value.Valid() && r.value.rows == t.rows
                      && r.value.names == Added(t.names, Target)
                      && Target in r.value.cols
                      && (forall i :: 0 <= i < t.rows ==>
                            r.value.cols[Target][i] == Int(ParseSalary(t.cols[Source][i].s)))
                      && (forall n :: n in t.cols && n != Target ==> r.value.cols[n] == t.cols[n])
  {
    var texts :- Texts(t, Source);
    Ok(t.Set(Target, IntCells(Salaries(texts))))
  }

  /** `ParseSalaryHandler.process`, updating the frame itself. */
  method Process(df: DataFrame) returns (r: Result<DataFrame, Error>)
    requires df.Valid()
    modifies df
    ensures InPlace(r, df, Apply(old(df.Snapshot())))
  {
    var texts := Texts(df.Snapshot(), Source);
    if texts.Err? {
      return Err(texts.error);
    }
    df.SetColumn(Target, IntCells(Salaries(texts.value)));
    r := Ok(df);
  }

  /** Two pieces of text read as one: the digits of the second are appended
      to those of the first, so a range "от 30 до 50" becomes 3050. */
  lemma SalaryAppend(a: string, b: string)
    ensures ParseSalary(a + b) == ParseSalary(a) * Pow10(|Digits(b)|) + ParseSalary(b)
  {
    DigitsAppend(a, b);
    DecimalValueAppend(Digits(a), Digits(b));
  }

  /** Text without digits (spaces, currency, punctuation) changes nothing. */
  lemma SalaryIgnoresSeparators(a: string, sep: string, b: string)
    requires forall k :: 0 <= k < |sep| ==> !IsDigit(sep[k])
    ensures ParseSalary(a + sep + b) == ParseSalary(a + b)
  {
    DigitsOfNoDigits(sep);
    DigitsAppend(a + sep, b);
    DigitsAppend(a, sep);
    DigitsAppend(a, b);
    assert Digits(a) + [] == Digits(a);
  }

  /** An amount written out and followed by a digit-free unit is read back exactly. */
  lemma SalaryRoundTrip(n: nat, unit: string)
    requires forall k :: 0 <= k < |unit| ==> !IsDigit(unit[k])
    ensures ParseSalary(NatText(n) + unit) == n
  {
    DigitsOfNoDigits(unit);
    DigitsAppend(NatText(n), unit);
    DigitsOfDigits(NatText(n));
    assert NatText(n) + [] == NatText(n);
    NatTextRoundTrip(n);
  }

  /** A text without any digit gives 0. */
  lemma SalaryWithoutDigits(v: string)
    requires forall k :: 0 <= k < |v| ==> !IsDigit(v[k])
    ensures ParseSalary(v) == 0
  {
    DigitsOfNoDigits(v);
  }
}
