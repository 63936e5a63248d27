/** The data frame the stages pass along: named columns of equal length, in
    column order, holding cells of one of the kinds pandas produces here. */
module Frames {
  import opened Results
  import opened Text

  /** One value of a data frame: text, an integer, a float, or missing (NaN). */
  datatype Cell = Str(s: string) | Int(i: int) | Real(r: real) | Missing

  /** `str(value)`. Python's repr of a float is not modelled, so a Real cell has none. */
  function CellText(c: Cell): Option<string> {
    match c
    case Str(s) => Some(s)
    case Int(i) => Some(IntText(i))
    case Real(_) => None
    case Missing => Some("nan")
  }

  /** The text a keyword or pattern search sees in a cell: none for a missing
      cell (the callers test `pd.isna` first) and none for a float, whose text
      (digits, '.', 'e', sign, "inf") holds none of the keywords or patterns searched for. */
  function SearchText(c: Cell): Option<string> {
    match c
    case Str(s) => Some(s)
    case Int(i) => Some(IntText(i))
    case Real(_) => None
    case Missing => None
  }

  /** A cell that lives in a numeric column. */
  predicate IsNumeric(c: Cell) {
    !c.Str?
  }

  /** What a stage, a loader or a matrix extraction can fail with. */
  datatype Error =
    | FileNotFound(path: string)      // read_csv on a path that holds no file
    | KeyError(column: string)        // a required column is absent
    | NotText(column: string)         // a str method applied to a cell that is not a str
    | NotNumeric(column: string)      // to_numpy(dtype=float32) on a text cell
    | DuplicateColumns                // renaming made two column labels equal
    | FloatText(column: string)       // stringifying a float cell (repr not modelled)
    | IndexError(position: nat)       // `df.columns[k]` past the last column

  predicate Distinct(names: seq<string>) {
    forall i, j :: 0 <= i < j < |names| ==> names[i] != names[j]
  }

  /** `names` without `n`, the others kept in order. */
  function Remove(names: seq<string>, n: string): (r: seq<string>)
    ensures forall m :: m in r <==> m in names && m != n
    ensures Distinct(names) ==> Distinct(r)
    ensures |r| <= |names|
  {
    if names == [] then []
    else
      var rest := Remove(names[1..], n);
      assert forall m :: m in names[1..] ==> m in names;
      assert Distinct(names) ==> names[0] !in names[1..] && Distinct(names[1..]);
      if names[0] == n then rest else [names[0]] + rest
  }

  /** `cols[names[k]]` filed under `newNames[k]` for every k. */
  function Rekey(names: seq<string>, newNames: seq<string>, cols: map<string, seq<Cell>>): (m: map<string, seq<Cell>>)
    requires |names| == |newNames| && Distinct(newNames)
    requires forall n :: n in names ==> n in cols
    ensures forall n :: n in m <==> n in newNames
    ensures forall k :: 0 <= k < |names| ==> m[newNames[k]] == cols[names[k]]
  {
    if names == [] then map[]
    else
      var rest := Rekey(names[1..], newNames[1..], cols);
      assert forall k :: 1 <= k < |names| ==> newNames[k] == newNames[1..][k - 1] && names[k] == names[1..][k - 1];
      rest[newNames[0] := cols[names[0]]]
  }

  /** The labels after `df[n] = ...`: `n` is appended unless already present. */
  function Added(names: seq<string>, n: string): (r: seq<string>)
    ensures forall m :: m in r <==> m in names || m == n
  {
    if n in names then names else names + [n]
  }

  datatype Table = Table(names: seq<string>, cols: map<string, seq<Cell>>, rows: nat) {

    /** Labels are distinct, every label has a column, and all columns have `rows` cells. */
    ghost predicate Valid() {
      && Distinct(names)
      && (forall n :: n in names <==> n in cols)
      && (forall n :: n in cols ==> |cols[n]| == rows)
    }

    /** `df[n] = col`: overwrites column `n` where it stands, or appends it. */
    function Set(n: string, col: seq<Cell>): (t: Table)
      requires Valid() && |col| == rows
      ensures t.Valid() && t.rows == rows
      ensures t.names == Added(names, n)
      ensures t.cols == cols[n := col]
    {
      Table(if n in cols then names else names + [n], cols[n := col], rows)
    }

    /** `df.drop(columns=[n])`. */
    function Drop(n: string): (t: Table)
      requires Valid() && n in cols
      ensures t.Valid() && t.rows == rows
      ensures t.names == Remove(names, n) && t.cols == cols - {n}
    {
      Table(Remove(names, n), cols - {n}, rows)
    }

    /** `df.columns = newNames`: relabels the columns position by position. */
    function Rename(newNames: seq<string>): (t: Table)
      requires Valid() && |newNames| == |names| && Distinct(newNames)
      ensures t.Valid() && t.rows == rows && t.names == newNames
      ensures forall k :: 0 <= k < |names| ==> t.cols[newNames[k]] == cols[names[k]]
    {
      var m := Rekey(names, newNames, cols);
      assert forall n :: n in m ==> exists k :: 0 <= k < |names| && n == newNames[k];
      Table(newNames, m, rows)
    }

    /** Keeps the rows whose flag is set, in order (`df[mask]`). */
    function Select(keep: seq<bool>): (t: Table)
      requires Valid() && |keep| == rows
      ensures t.Valid() && t.names == names && t.rows == |Kept(keep)|
      ensures forall n :: n in cols ==> t.cols[n] == Pick(cols[n], Kept(keep))
    {
      var idx := Kept(keep);
      Table(names, map n | n in cols :: Pick(cols[n], idx), |idx|)
    }
  }

  /** The positions whose flag is set, ascending. */
  function Kept(keep: seq<bool>): (idx: seq<nat>)
    ensures forall k :: 0 <= k < |idx| ==> idx[k] < |keep| && keep[idx[k]]
    ensures forall i :: 0 <= i < |keep| && keep[i] ==> i in idx
    ensures forall a, b :: 0 <= a < b < |idx| ==> idx[a] < idx[b]
    ensures |idx| <= |keep|
  {
    if keep == [] then []
    else
      var rest := Kept(keep[..|keep| - 1]);
      if keep[|keep| - 1] then rest + [|keep| - 1] else rest
  }

  /** The elements of `s` at positions `idx`, in that order. */
  function Pick<T>(s: seq<T>, idx: seq<nat>): (r: seq<T>)
    requires forall k :: 0 <= k < |idx| ==> idx[k] < |s|
    ensures |r| == |idx| && forall k :: 0 <= k < |idx| ==> r[k] == s[idx[k]]
  {
    seq(|idx|, k requires 0 <= k < |idx| => s[idx[k]])
  }

  /** The column `n`, or the KeyError that `df[n]` raises. */
  function Column(t: Table, n: string): (r: Result<seq<Cell>, Error>)
    requires t.Valid()
    ensures r.Ok? <==> n in t.cols
    ensures r.Ok? ==> r.value == t.cols[n] && |r.value| == t.rows
    ensures r.Err? ==> r.error == KeyError(n)
  {
    if n in t.cols then Ok(t.cols[n]) else Err(KeyError(n))
  }

  /** The column `n` as str values, for `df[n].apply(f)` with an `f` that calls a
      str method: absent column -> KeyError, any non-str cell -> NotText. */
  function Texts(t: Table, n: string): (r: Result<seq<string>, Error>)
    requires t.Valid()
    ensures r.Ok? <==> n in t.cols && forall i :: 0 <= i < t.rows ==> t.cols[n][i].Str?
    ensures r.Ok? ==> |r.value| == t.rows && forall i :: 0 <= i < t.rows ==> t.cols[n][i] == Str(r.value[i])
    ensures r.Err? && n !in t.cols ==> r.error == KeyError(n)
    ensures r.Err? && n in t.cols ==> r.error == NotText(n)
  {
    if n !in t.cols then Err(KeyError(n))
    else
      var col := t.cols[n];
      if forall i :: 0 <= i < |col| ==> col[i].Str? then Ok(seq(|col|, i requires 0 <= i < |col| => col[i].s))
      else Err(NotText(n))
  }

  function IntCells(xs: seq<int>): (c: seq<Cell>)
    ensures |c| == |xs| && forall i :: 0 <= i < |xs| ==> c[i] == Int(xs[i])
  {
    seq(|xs|, i requires 0 <= i < |xs| => Int(xs[i]))
  }

  function RealCells(xs: seq<real>): (c: seq<Cell>)
    ensures |c| == |xs| && forall i :: 0 <= i < |xs| ==> c[i] == Real(xs[i])
  {
    seq(|xs|, i requires 0 <= i < |xs| => Real(xs[i]))
  }

  function StrCells(xs: seq<string>): (c: seq<Cell>)
    ensures |c| == |xs| && forall i :: 0 <= i < |xs| ==> c[i] == Str(xs[i])
  {
    seq(|xs|, i requires 0 <= i < |xs| => Str(xs[i]))
  }

  /** A pandas DataFrame that the stages update in place. */
  class DataFrame {
    var columns: seq<string>
    var data: map<string, seq<Cell>>
    var length: nat

    function Snapshot(): Table
      reads this
    {
      Table(columns, data, length)
    }

    ghost predicate Valid()
      reads this
    {
      Snapshot().Valid()
    }

    constructor (t: Table)
      requires t.Valid()
      ensures Valid() && Snapshot() == t
    {
      columns, data, length := t.names, t.cols, t.rows;
    }

    /** `df[n] = col`. */
    method SetColumn(n: string, col: seq<Cell>)
      requires Valid() && |col| == length
      modifies this
      ensures Valid() && Snapshot() == old(Snapshot()).Set(n, col)
    {
      if n !in data {
        columns := columns + [n];
      }
      data := data[n := col];
    }

    /** `df.drop(columns=[n], inplace=True)`. */
    method DropColumn(n: string)
      requires Valid() && n in data
      modifies this
      ensures Valid() && Snapshot() == old(Snapshot()).Drop(n)
    {
      columns := Remove(columns, n);
      data := data - {n};
    }

    /** `df.columns = newNames`. */
    method SetColumnNames(newNames: seq<string>)
      requires Valid() && |newNames| == |columns| && Distinct(newNames)
      modifies this
      ensures Valid() && Snapshot() == old(Snapshot()).Rename(newNames)
    {
      data := Rekey(columns, newNames, data);
      columns := newNames;
    }
  }

  /** How an in-place `process` ended: on success the same frame, now holding
      `expected`'s table; on failure `expected`'s error. */
  ghost predicate InPlace(r: Result<DataFrame, Error>, df: DataFrame, expected: Result<Table, Error>)
    reads df
  {
    match expected
    case Ok(t) => r == Ok(df) && df.Valid() && df.Snapshot() == t
    case Err(e) => r == Err(e)
  }
}
