/** app/data/filters.py: the résumés of IT developers, recognised by keywords
    in the job title. */
module Filters {
  import opened Results
  import opened Text
  import opened Frames
  import opened AppParsers

  /** The keywords of an IT job title. */
  const ItKeywords: seq<string> := [
    "программист", "разработчик", "developer", "devops",
    "backend", "frontend", "fullstack", "full-stack",
    "системный администратор", "sysadmin", "it инженер", "it-инженер",
    "web-программист", "web-разработчик", "data scientist",
    "python", "java", "javascript", "c++", "c#", "php",
    "руководитель разработки", "team lead", "tech lead",
    "архитектор", "web-администратор", "web-мастер",
    "инженер-программист", "техник-программист"
  ]

  /** `is_it_developer`: false for a missing title, else whether the
      lower-cased title contains a lower-cased keyword. */
  function IsItDeveloper(title: Cell): (b: bool)
    ensures SearchText(title).None? ==> !b
  {
    match SearchText(title)
    case None => false
    case Some(s) => ContainsAny(Lower(s), LowerAll(ItKeywords))
  }

  /** A title is an IT title exactly when some keyword, lower-cased, occurs in
      the lower-cased title. */
  lemma ItDeveloperSpec(title: string)
    ensures IsItDeveloper(Str(title)) <==>
              exists k :: 0 <= k < |ItKeywords| && Occurs(Lower(title), Lower(ItKeywords[k]))
  {
    var keywords := LowerAll(ItKeywords);
    assert IsItDeveloper(Str(title)) == ContainsAny(Lower(title), keywords);
    assert forall k :: 0 <= k < |ItKeywords| ==> keywords[k] == Lower(ItKeywords[k]);
  }

  /** `df[n].apply(is_it_developer)`. */
  function Mask(col: seq<Cell>): (m: seq<bool>)
    ensures |m| == |col| && forall i :: 0 <= i < |col| ==> m[i] == IsItDeveloper(col[i])
  {
    seq(|col|, i requires 0 <= i < |col| => IsItDeveloper(col[i]))
  }

  /** `filter_it_developers`: the rows whose job title is an IT title, in their
      original order, with every column; the job column is the one
      `find_column` picks, and a table of at most three columns without a job
      label raises IndexError. On a table without rows `apply` gives an empty
      mask of the column's own (non-boolean) dtype, which `df[...]` reads as
      an empty list of labels: the result has no rows and no columns. */
  function FilterItDevelopers(t: Table): (r: Result<Table, Error>)
    requires t.Valid()
    ensures r.Err? <==> FindColumn(t.names, JobLabels).Err?
    ensures r.Err? ==> r.error == IndexError(3)
    ensures FindColumn(t.names, JobLabels).Ok? && t.rows == 0 ==> r == Ok(Table([], map[], 0))
    ensures r.Ok? ==>
              var job := FindColumn(t.names, JobLabels).value;
              var idx := Kept(Mask(t.cols[job]));
              && r.value.Valid()
              && r.value.rows == |idx| <= t.rows
              && (forall k :: 0 <= k < |idx| ==> IsItDeveloper(t.cols[job][idx[k]]))
              && (forall i :: 0 <= i < t.rows && IsItDeveloper(t.cols[job][i]) ==> i in idx)
              && (forall a, b :: 0 <= a < b < |idx| ==> idx[a] < idx[b])
    ensures r.Ok? && t.rows > 0 ==>
              var idx := Kept(Mask(t.cols[FindColumn(t.names, JobLabels).value]));
              && r.value.names == t.names
              && (forall n :: n in t.cols ==> r.value.cols[n] == Pick(t.cols[n], idx))
  {
    var job :- FindColumn(t.names, JobLabels);
    if t.rows == 0 then Ok(Table([], map[], 0))
    else Ok(t.Select(Mask(t.cols[job])))
  }

  /** With every flag set, every position is kept. */
  lemma {:induction false} KeptAll(keep: seq<bool>)
    requires forall i :: 0 <= i < |keep| ==> keep[i]
    ensures |Kept(keep)| == |keep| && forall k :: 0 <= k < |keep| ==> Kept(keep)[k] == k
  {
    if keep != [] {
      KeptAll(keep[..|keep| - 1]);
    }
  }

  /** Filtering twice keeps what filtering once keeps, when at least one row
      passes: the labels are the same, so the same job column is found, and
      every kept row passes again. */
  lemma FilterIdempotent(t: Table)
    requires t.Valid() && FilterItDevelopers(t).Ok? && FilterItDevelopers(t).value.rows > 0
    ensures FilterItDevelopers(FilterItDevelopers(t).value) == FilterItDevelopers(t)
  {
    var r := FilterItDevelopers(t).value;
    var job := FindColumn(t.names, JobLabels).value;
    var mask := Mask(r.cols[job]);
    KeptAll(mask);
    var again := r.Select(mask);
    assert again.cols == r.cols by {
      forall n | n in r.cols
        ensures again.cols[n] == r.cols[n]
      {
        assert Pick(r.cols[n], Kept(mask)) == r.cols[n];
      }
    }
  }

  /** When rows exist but none passes, filtering the result again loses every
      column, and filtering a table with no columns finds no job column. */
  lemma FilterNoneKept(t: Table)
    requires t.Valid() && FilterItDevelopers(t).Ok? && FilterItDevelopers(t).value.rows == 0
    ensures t.rows > 0 ==> FilterItDevelopers(FilterItDevelopers(t).value) == Ok(Table([], map[], 0))
    ensures FilterItDevelopers(Table([], map[], 0)) == Err(IndexError(3))
  {
    var r := FilterItDevelopers(t).value;
    assert t.rows > 0 ==> r.names == t.names;
  }
}
