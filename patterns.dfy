/** The fragment of Python's `re` that the parsers use: literals, `\s*`, `\s+`,
    a captured `(\d+)` and a trailing alternation of literals, with `re.search`'s
    leftmost-match semantics. */
module Patterns {
  import opened Results
  import opened Text

  datatype Token =
    | Lit(text: string)           // the literal text itself
    | Spaces(atLeastOne: bool)    // `\s+` when atLeastOne, else `\s*`
    | Number                      // `(\d+)`, captured and read with `int(...)`
    | OneOf(options: seq<string>) // `(?:a|b|...)`; only ever the last token of a pattern

  /** Where a search matched and the captured numbers, in group order. */
  datatype Found = Found(start: nat, groups: seq<nat>)

  /** The end of the run of digits that starts at `i`. */
  function DigitRunEnd(s: string, i: nat): (j: nat)
    requires i <= |s|
    ensures i <= j <= |s|
    ensures forall k :: i <= k < j ==> IsDigit(s[k])
    ensures j == |s| || !IsDigit(s[j])
    decreases |s| - i
  {
    if i < |s| && IsDigit(s[i]) then DigitRunEnd(s, i + 1) else i
  }

  /** The end of the run of whitespace that starts at `i`. */
  function SpaceRunEnd(s: string, i: nat): (j: nat)
    requires i <= |s|
    ensures i <= j <= |s|
    ensures forall k :: i <= k < j ==> IsSpace(s[k])
    ensures j == |s| || !IsSpace(s[j])
    decreases |s| - i
  {
    if i < |s| && IsSpace(s[i]) then SpaceRunEnd(s, i + 1) else i
  }

  /** The number of capturing groups of a pattern. */
  function Captures(p: seq<Token>): nat {
    if p == [] then 0 else (if p[0].Number? then 1 else 0) + Captures(p[1..])
  }

  /** The first option that occurs at position `i`. */
  function FirstOption(options: seq<string>, s: string, i: nat): (r: Option<string>)
    requires i <= |s|
    ensures r.Some? ==> r.value in options && StartsWith(s[i..], r.value)
    ensures r.None? ==> forall o :: o in options ==> !StartsWith(s[i..], o)
  {
    if options == [] then None
    else if StartsWith(s[i..], options[0]) then Some(options[0])
    else FirstOption(options[1..], s, i)
  }

  /** Matches pattern `p` anchored at `i`, giving the end of the match and the
      captured numbers. Every run is taken whole: in the patterns used here a
      run is always followed by a token that cannot begin with a character of
      that run, so the backtracking of `re` never finds a shorter run that
      works, and a trailing alternation needs no backtracking at all. */
  function MatchAt(p: seq<Token>, s: string, i: nat): (r: Option<(nat, seq<nat>)>)
    requires i <= |s|
    ensures r.Some? ==> i <= r.value.0 <= |s| && |r.value.1| == Captures(p)
    decreases p
  {
    if p == [] then Some((i, []))
    else match p[0]
      case Lit(t) =>
        if StartsWith(s[i..], t) then MatchAt(p[1..], s, i + |t|) else None
      case Spaces(atLeastOne) =>
        if atLeastOne && !(i < |s| && IsSpace(s[i])) then None
        else MatchAt(p[1..], s, SpaceRunEnd(s, i))
      case Number =>
        if i < |s| && IsDigit(s[i]) then
          var j := DigitRunEnd(s, i);
          match MatchAt(p[1..], s, j)
          case None => None
          case Some(m) => Some((m.0, [DecimalValue(s[i..j])] + m.1))
        else None
      case OneOf(options) =>
        match FirstOption(options, s, i)
        case None => None
        case Some(o) => MatchAt(p[1..], s, i + |o|)
  }

  /** Which option occurs at `i` depends only on the text from `i` on. */
  lemma {:induction false} FirstOptionShift(options: seq<string>, s: string, i: nat)
    requires i <= |s|
    ensures FirstOption(options, s, i) == FirstOption(options, s[i..], 0)
  {
    assert s[i..][0..] == s[i..];
    if options != [] {
      FirstOptionShift(options[1..], s, i);
    }
  }

  /** `re.search(p, s)`: the match that starts leftmost, scanning from `i`. */
  function SearchFrom(p: seq<Token>, s: string, i: nat): (r: Option<Found>)
    requires i <= |s|
    ensures r.Some? ==> i <= r.value.start <= |s|
                        && MatchAt(p, s, r.value.start).Some?
                        && r.value.groups == MatchAt(p, s, r.value.start).value.1
                        && forall k :: i <= k < r.value.start ==> MatchAt(p, s, k).None?
    ensures r.None? ==> forall k :: i <= k <= |s| ==> MatchAt(p, s, k).None?
    decreases |s| - i
  {
    match MatchAt(p, s, i)
    case Some(m) => Some(Found(i, m.1))
    case None => if i == |s| then None else SearchFrom(p, s, i + 1)
  }

  function Search(p: seq<Token>, s: string): (r: Option<Found>)
    ensures r.Some? ==> && r.value.start <= |s|
                        && MatchAt(p, s, r.value.start).Some?
                        && r.value.groups == MatchAt(p, s, r.value.start).value.1
                        && |r.value.groups| == Captures(p)
                        && forall k :: 0 <= k < r.value.start ==> MatchAt(p, s, k).None?
    ensures r.None? ==> forall k :: 0 <= k <= |s| ==> MatchAt(p, s, k).None?
  {
    SearchFrom(p, s, 0)
  }

  /** A match at `i` with none before it is the one `re.search` finds. */
  lemma SearchFindsFirst(p: seq<Token>, s: string, i: nat)
    requires i <= |s| && MatchAt(p, s, i).Some?
    requires forall k :: 0 <= k < i ==> MatchAt(p, s, k).None?
    ensures Search(p, s) == Some(Found(i, MatchAt(p, s, i).value.1))
  {
  }

  /** A match result moved `d` characters to the right. */
  function ShiftEnd(r: Option<(nat, seq<nat>)>, d: nat): Option<(nat, seq<nat>)> {
    match r
    case None => None
    case Some(m) => Some((m.0 + d, m.1))
  }

  /** Whether and how `p` matches at `i` depends only on the text from `i` on. */
  lemma {:induction false} MatchShift(p: seq<Token>, s: string, i: nat)
    requires i <= |s|
    ensures MatchAt(p, s, i) == ShiftEnd(MatchAt(p, s[i..], 0), i)
    decreases p, 2
  {
    if p != [] {
      match p[0]
      case Lit(_) => LitShift(p, s, i);
      case Spaces(_) => SpacesShift(p, s, i);
      case Number => NumberShift(p, s, i);
      case OneOf(_) => OneOfShift(p, s, i);
    }
  }

  lemma ShiftTwice(r: Option<(nat, seq<nat>)>, a: nat, b: nat)
    ensures ShiftEnd(ShiftEnd(r, a), b) == ShiftEnd(r, a + b)
  {
  }

  /** A match result with the number `v` captured in front of its groups. */
  function Capture(r: Option<(nat, seq<nat>)>, v: nat): Option<(nat, seq<nat>)> {
    match r
    case None => None
    case Some(m) => Some((m.0, [v] + m.1))
  }

  lemma CaptureShifted(r: Option<(nat, seq<nat>)>, v: nat, a: nat, b: nat)
    ensures ShiftEnd(Capture(ShiftEnd(r, a), v), b) == Capture(ShiftEnd(r, a + b), v)
  {
  }

  lemma {:induction false} LitShift(p: seq<Token>, s: string, i: nat)
    requires i <= |s| && p != [] && p[0].Lit?
    ensures MatchAt(p, s, i) == ShiftEnd(MatchAt(p, s[i..], 0), i)
    decreases p, 1
  {
    var t, w := s[i..], p[0].text;
    assert t[0..] == t;
    if StartsWith(t, w) {
      LitAt(p, s, i);
      LitAt(p, t, 0);
      assert t[|w|..] == s[i + |w|..];
      ShiftTwice(MatchAt(p[1..], s[i + |w|..], 0), |w|, i);
    } else {
      assert MatchAt(p, s, i) == None == MatchAt(p, t, 0);
    }
  }

  /** A literal that occurs at `i`: the rest of the pattern is matched after it. */
  lemma {:induction false} LitAt(p: seq<Token>, s: string, i: nat)
    requires i <= |s| && p != [] && p[0].Lit? && StartsWith(s[i..], p[0].text)
    ensures i + |p[0].text| <= |s|
    ensures MatchAt(p, s, i) == ShiftEnd(MatchAt(p[1..], s[i + |p[0].text|..], 0), i + |p[0].text|)
    decreases p, 0
  {
    MatchShift(p[1..], s, i + |p[0].text|);
  }

  lemma {:induction false} SpacesShift(p: seq<Token>, s: string, i: nat)
    requires i <= |s| && p != [] && p[0].Spaces?
    ensures MatchAt(p, s, i) == ShiftEnd(MatchAt(p, s[i..], 0), i)
    decreases p, 1
  {
    var t := s[i..];
    var j := SpaceRunEnd(s, i);
    if p[0].atLeastOne && !(i < |s| && IsSpace(s[i])) {
      assert MatchAt(p, s, i) == None == MatchAt(p, t, 0);
    } else {
      SpacesAt(p, s, i);
      SpaceRunEndAt(t, 0, j - i);
      if i < |s| { assert t[0] == s[i]; }
      SpacesAt(p, t, 0);
      assert t[j - i..] == s[j..];
      ShiftTwice(MatchAt(p[1..], s[j..], 0), j - i, i);
    }
  }

  /** A run of spaces that the token accepts at `i`: the rest of the pattern
      is matched after the run. */
  lemma {:induction false} SpacesAt(p: seq<Token>, s: string, i: nat)
    requires i <= |s| && p != [] && p[0].Spaces?
    requires p[0].atLeastOne ==> i < |s| && IsSpace(s[i])
    ensures MatchAt(p, s, i) == ShiftEnd(MatchAt(p[1..], s[SpaceRunEnd(s, i)..], 0), SpaceRunEnd(s, i))
    decreases p, 0
  {
    MatchShift(p[1..], s, SpaceRunEnd(s, i));
  }

  lemma {:induction false} NumberShift(p: seq<Token>, s: string, i: nat)
    requires i <= |s| && p != [] && p[0].Number?
    ensures MatchAt(p, s, i) == ShiftEnd(MatchAt(p, s[i..], 0), i)
    decreases p, 1
  {
    var t := s[i..];
    if i < |s| && IsDigit(s[i]) {
      var j := DigitRunEnd(s, i);
      var k := j - i;
      NumberAt(p, s, i);
      assert t[0] == s[i];
      DigitRunEndAt(t, 0, k);
      NumberAt(p, t, 0);
      assert t[0..k] == s[i..j];
      assert t[k..] == s[j..];
      CaptureShifted(MatchAt(p[1..], s[j..], 0), DecimalValue(s[i..j]), k, i);
    } else {
      assert MatchAt(p, s, i) == None == MatchAt(p, t, 0);
    }
  }

  /** A digit run that starts at `i`: its value is captured and the rest of the
      pattern is matched after it. */
  lemma {:induction false} NumberAt(p: seq<Token>, s: string, i: nat)
    requires i < |s| && IsDigit(s[i]) && p != [] && p[0].Number?
    ensures var j := DigitRunEnd(s, i);
            MatchAt(p, s, i) == Capture(ShiftEnd(MatchAt(p[1..], s[j..], 0), j), DecimalValue(s[i..j]))
    decreases p, 0
  {
    MatchShift(p[1..], s, DigitRunEnd(s, i));
  }

  lemma {:induction false} OneOfShift(p: seq<Token>, s: string, i: nat)
    requires i <= |s| && p != [] && p[0].OneOf?
    ensures MatchAt(p, s, i) == ShiftEnd(MatchAt(p, s[i..], 0), i)
    decreases p, 1
  {
    var t := s[i..];
    FirstOptionShift(p[0].options, s, i);
    FirstOptionShift(p[0].options, t, 0);
    assert t[0..] == t;
    match FirstOption(p[0].options, s, i)
    case None =>
      assert MatchAt(p, s, i) == None == MatchAt(p, t, 0);
    case Some(o) =>
      OneOfAt(p, s, i, o);
      OneOfAt(p, t, 0, o);
      assert t[|o|..] == s[i + |o|..];
      ShiftTwice(MatchAt(p[1..], s[i + |o|..], 0), |o|, i);
  }

  /** The option `o` found at `i`: the rest of the pattern is matched after it. */
  lemma {:induction false} OneOfAt(p: seq<Token>, s: string, i: nat, o: string)
    requires i <= |s| && p != [] && p[0].OneOf? && FirstOption(p[0].options, s, i) == Some(o)
    ensures i + |o| <= |s|
    ensures MatchAt(p, s, i) == ShiftEnd(MatchAt(p[1..], s[i + |o|..], 0), i + |o|)
    decreases p, 0
  {
    assert i + |o| <= |s| by {
      assert StartsWith(s[i..], o);
    }
    assert MatchAt(p, s, i) == MatchAt(p[1..], s, i + |o|);
    MatchShift(p[1..], s, i + |o|);
  }

  /** A literal at the front of the text is consumed whole. */
  lemma LitFront(p: seq<Token>, w: string, rest: string)
    requires p != [] && p[0] == Lit(w)
    ensures MatchAt(p, w + rest, 0) == ShiftEnd(MatchAt(p[1..], rest, 0), |w|)
  {
    var s := w + rest;
    assert s[0..] == s && s[..|w|] == w;
    assert s[|w|..] == rest;
    MatchShift(p[1..], s, |w|);
  }

  /** A whitespace run at the front, ended by a non-space, is consumed whole. */
  lemma SpacesFront(p: seq<Token>, gap: string, rest: string)
    requires p != [] && p[0].Spaces? && (p[0].atLeastOne ==> gap != [])
    requires forall k :: 0 <= k < |gap| ==> IsSpace(gap[k])
    requires rest == [] || !IsSpace(rest[0])
    ensures MatchAt(p, gap + rest, 0) == ShiftEnd(MatchAt(p[1..], rest, 0), |gap|)
  {
    var s := gap + rest;
    assert forall k :: 0 <= k < |gap| ==> s[k] == gap[k];
    assert |gap| < |s| ==> s[|gap|] == rest[0];
    SpaceRunEndAt(s, 0, |gap|);
    assert s[|gap|..] == rest;
    MatchShift(p[1..], s, |gap|);
  }

  /** A number written in decimal at the front, ended by a non-digit, is
      captured as that number. */
  lemma NumberFront(p: seq<Token>, n: nat, rest: string)
    requires p != [] && p[0] == Number
    requires rest == [] || !IsDigit(rest[0])
    ensures MatchAt(p, NatText(n) + rest, 0) == Capture(ShiftEnd(MatchAt(p[1..], rest, 0), |NatText(n)|), n)
  {
    var d := NatText(n);
    var s := d + rest;
    assert forall k :: 0 <= k < |d| ==> s[k] == d[k];
    assert |d| < |s| ==> s[|d|] == rest[0];
    DigitRunEndAt(s, 0, |d|);
    assert s[|d|..] == rest;
    assert s[0..|d|] == d;
    NatTextRoundTrip(n);
    MatchShift(p[1..], s, |d|);
  }

  /** A closing alternation matches when one of its options opens the text. */
  lemma OneOfFront(p: seq<Token>, w: string, rest: string)
    requires |p| == 1 && p[0].OneOf? && w in p[0].options
    ensures MatchAt(p, w + rest, 0).Some? && MatchAt(p, w + rest, 0).value.1 == []
  {
    var s := w + rest;
    assert s[0..] == s && s[..|w|] == w;
    assert StartsWith(s[0..], w);
  }

  /** A pattern opening with a literal matches nowhere after the start when
      the literal's first character does not occur again in the text. */
  lemma LitOnlyAtStart(p: seq<Token>, s: string)
    requires p != [] && p[0].Lit? && p[0].text != [] && s != [] && p[0].text[0] !in s[1..]
    ensures forall k :: 1 <= k <= |s| ==> MatchAt(p, s, k).None?
  {
  }

  /** A match at the front of `x`, with no match anywhere in the head `h`
      before it, is what `re.search` reports in `h + x`. */
  lemma SearchAfter(p: seq<Token>, h: string, x: string)
    requires MatchAt(p, x, 0).Some?
    requires forall k :: 0 <= k < |h| ==> MatchAt(p, h + x, k).None?
    ensures Search(p, h + x) == Some(Found(|h|, MatchAt(p, x, 0).value.1))
  {
    MatchShift(p, h + x, |h|);
    assert (h + x)[|h|..] == x;
    SearchFindsFirst(p, h + x, |h|);
  }

  /** A run of digits ended by a non-digit is exactly what DigitRunEnd finds. */
  /** One literal more in front of a match: it still matches, with the same groups. */
  lemma LitStep(p: seq<Token>, w: string, rest: string, g: seq<nat>)
    requires p != [] && p[0] == Lit(w)
    requires MatchAt(p[1..], rest, 0).Some? && MatchAt(p[1..], rest, 0).value.1 == g
    ensures MatchAt(p, w + rest, 0).Some? && MatchAt(p, w + rest, 0).value.1 == g
  {
    LitFront(p, w, rest);
  }

  /** One run of spaces more in front of a match: it still matches, with the same groups. */
  lemma SpacesStep(p: seq<Token>, gap: string, rest: string, g: seq<nat>)
    requires p != [] && p[0].Spaces? && (p[0].atLeastOne ==> gap != [])
    requires forall k :: 0 <= k < |gap| ==> IsSpace(gap[k])
    requires rest == [] || !IsSpace(rest[0])
    requires MatchAt(p[1..], rest, 0).Some? && MatchAt(p[1..], rest, 0).value.1 == g
    ensures MatchAt(p, gap + rest, 0).Some? && MatchAt(p, gap + rest, 0).value.1 == g
  {
    SpacesFront(p, gap, rest);
  }

  /** One number more in front of a match: it still matches, and the number
      is captured before the other groups. */
  lemma NumberStep(p: seq<Token>, n: nat, rest: string, g: seq<nat>)
    requires p != [] && p[0] == Number
    requires rest == [] || !IsDigit(rest[0])
    requires MatchAt(p[1..], rest, 0).Some? && MatchAt(p[1..], rest, 0).value.1 == g
    ensures MatchAt(p, NatText(n) + rest, 0).Some? && MatchAt(p, NatText(n) + rest, 0).value.1 == [n] + g
  {
    NumberFront(p, n, rest);
  }

  /** A number on [i, j) followed by something that is neither a digit nor a
      space: a number-then-spaces pattern matches at `i` only if its rest
      matches at `j`. */
  lemma NumberSpacesAt(p: seq<Token>, s: string, i: nat, j: nat)
    requires |p| >= 2 && p[0] == Number && p[1] == Spaces(false)
    requires i < j < |s|
    requires forall k :: i <= k < j ==> IsDigit(s[k])
    requires !IsDigit(s[j]) && !IsSpace(s[j])
    ensures MatchAt(p, s, i).Some? ==> MatchAt(p[2..], s, j).Some?
  {
    DigitRunEndAt(s, i, j);
    SpaceRunEndAt(s, j, j);
    assert MatchAt(p[1..], s, j) == MatchAt(p[2..], s, j) by {
      assert p[1..][1..] == p[2..];
    }
  }

  lemma DigitRunEndAt(s: string, i: nat, j: nat)
    requires i <= j <= |s|
    requires forall k :: i <= k < j ==> IsDigit(s[k])
    requires j == |s| || !IsDigit(s[j])
    ensures DigitRunEnd(s, i) == j
  {
  }

  lemma SpaceRunEndAt(s: string, i: nat, j: nat)
    requires i <= j <= |s|
    requires forall k :: i <= k < j ==> IsSpace(s[k])
    requires j == |s| || !IsSpace(s[j])
    ensures SpaceRunEnd(s, i) == j
  {
  }
}
